/** The limiter of concurrent model calls, as a state machine: each step is one
    section the code runs under the limiter's mutex, and the steps of
    different calls interleave in any order. The limits in force are looked up
    anew in each. */
module Slots {

  datatype Key = Key(provider: string, model: string)

  type Limits = Key -> int

  /** Where a call is: waiting for a slot; given one and not told yet; told,
      and holding it; or done with it. */
  datatype Phase = Waiting | Granted | Holding | Over

  /** One Acquire and the release it returned. gate is the gate it captured;
      served says it was ever given a slot. A call's number is its place in
      the order of arrival. */
  datatype Call = Call(key: Key, gate: nat, phase: Phase, served: bool)

  datatype GateValue = GateValue(inUse: int, waiting: seq<nat>)

  /** gates is the limiter's map; heap holds every gate ever made, those no
      longer in the map too. */
  datatype State = State(gates: map<Key, nat>, heap: seq<GateValue>, calls: seq<Call>)

  const INITIAL := State(map[], [], [])

  datatype Op =
    | Enter(key: Key)
    | Tell(c: nat)
    | Cancel(c: nat)
    | Release(c: nat)
    | Changed(order: seq<Key>)

  // ---- The steps ----

  predicate Free(g: GateValue, limit: int) {
    limit <= 0 || g.inUse < limit
  }

  function Forget(s: State, k: Key, g: nat): State
    requires g < |s.heap|
  {
    if s.heap[g].inUse == 0 && s.heap[g].waiting == [] then s.(gates := s.gates - {k}) else s
  }

  /** The first in line gets a slot. */
  function Grant(s: State, g: nat): State
    requires g < |s.heap| && s.heap[g].waiting != [] && s.heap[g].waiting[0] < |s.calls|
  {
    var w := s.heap[g].waiting[0];
    State(s.gates, s.heap[g := GateValue(s.heap[g].inUse + 1, s.heap[g].waiting[1..])],
          s.calls[w := s.calls[w].(phase := Granted, served := true)])
  }

  predicate Known(s: State) {
    && (forall k :: k in s.gates ==> s.gates[k] < |s.heap|)
    && (forall c :: 0 <= c < |s.calls| ==> s.calls[c].gate < |s.heap|)
    && (forall g, i :: 0 <= g < |s.heap| && 0 <= i < |s.heap[g].waiting| ==> s.heap[g].waiting[i] < |s.calls|)
  }

  function Pump(s: State, k: Key, g: nat, limit: int): (s': State)
    requires Known(s) && g < |s.heap|
    ensures Known(s')
    decreases |s.heap[g].waiting|
  {
    if s.heap[g].waiting != [] && Free(s.heap[g], limit) then Pump(Grant(s, g), k, g, limit) else Forget(s, k, g)
  }

  /** The gate for key, made if there is none. */
  function Opened(s: State, k: Key): State {
    if k in s.gates then s else State(s.gates[k := |s.heap|], s.heap + [GateValue(0, [])], s.calls)
  }

  function Entered(s: State, k: Key, limit: int): (s': State)
    requires Known(s)
    ensures Known(s')
  {
    var s1 := Opened(s, k);
    var g := s1.gates[k];
    var gate := s1.heap[g];
    if gate.waiting == [] && Free(gate, limit) then
      s1.(heap := s1.heap[g := gate.(inUse := gate.inUse + 1)], calls := s1.calls + [Call(k, g, Holding, true)])
    else
      s1.(heap := s1.heap[g := gate.(waiting := gate.waiting + [|s1.calls|])],
          calls := s1.calls + [Call(k, g, Waiting, false)])
  }

  function Told(s: State, c: nat): (s': State)
    ensures Known(s) ==> Known(s')
  {
    if c < |s.calls| && s.calls[c].phase == Granted then s.(calls := s.calls[c := s.calls[c].(phase := Holding)]) else s
  }

  function Without(ws: seq<nat>, w: nat): (out: seq<nat>)
    ensures forall i :: 0 <= i < |out| ==> out[i] in ws
  {
    if ws == [] then [] else if ws[0] == w then ws[1..] else [ws[0]] + Without(ws[1..], w)
  }

  /** Call c is done with. */
  function Ended(s: State, c: nat): State
    requires c < |s.calls|
  {
    s.(calls := s.calls[c := s.calls[c].(phase := Over)])
  }

  /** Call c's slot, counted by gate g, is free. */
  function Freed(s: State, c: nat, g: nat): State
    requires c < |s.calls| && g < |s.heap|
  {
    Ended(s.(heap := s.heap[g := s.heap[g].(inUse := s.heap[g].inUse - 1)]), c)
  }

  /** Waiting call c leaves the line. */
  function GivenUp(s: State, c: nat): (s': State)
    requires Known(s) && c < |s.calls|
    ensures Known(s')
  {
    var g := s.calls[c].gate;
    Ended(s.(heap := s.heap[g := s.heap[g].(waiting := Without(s.heap[g].waiting, c))]), c)
  }

  /** A waiting call gives up; one that was given a slot meanwhile passes it
      on. It works on the gate it captured. */
  function Cancelled(s: State, c: nat, limits: Limits): (s': State)
    requires Known(s)
    ensures Known(s')
  {
    if c >= |s.calls| then s
    else
      var k, g := s.calls[c].key, s.calls[c].gate;
      if s.calls[c].phase == Granted then Pump(Freed(s, c, g), k, g, limits(k))
      else if s.calls[c].phase == Waiting then
        Forget(GivenUp(s, c), k, g)
      else s
  }

  /** A call gives back its slot, once. It looks the gate up by key. */
  function Released(s: State, c: nat, limits: Limits): (s': State)
    requires Known(s)
    ensures Known(s')
  {
    if c >= |s.calls| || s.calls[c].phase != Holding then s
    else
      var k := s.calls[c].key;
      if k !in s.gates then s else Pump(Freed(s, c, s.gates[k]), k, s.gates[k], limits(k))
  }

  function PumpedOne(s: State, k: Key, limits: Limits): (s': State)
    requires Known(s)
    ensures Known(s')
  {
    if k in s.gates then Pump(s, k, s.gates[k], limits(k)) else s
  }

  /** Every gate is pumped; the map is walked in any order. */
  function Pumped(s: State, order: seq<Key>, limits: Limits): (s': State)
    requires Known(s)
    ensures Known(s')
  {
    if order == [] then s
    else PumpedOne(Pumped(s, order[..|order| - 1], limits), order[|order| - 1], limits)
  }

  function Step(s: State, op: Op, limits: Limits): (s': State)
    requires Known(s)
    ensures Known(s')
  {
    match op
    case Enter(k) => Entered(s, k, limits(k))
    case Tell(c) => Told(s, c)
    case Cancel(c) => Cancelled(s, c, limits)
    case Release(c) => Released(s, c, limits)
    case Changed(order) => Pumped(s, order, limits)
  }

  datatype Event = Event(op: Op, limits: Limits)

  function Run(events: seq<Event>): (s: State)
    ensures Known(s)
  {
    if events == [] then INITIAL
    else
      var e := events[|events| - 1];
      Step(Run(events[..|events| - 1]), e.op, e.limits)
  }

  // ---- The invariant ----

  predicate HasSlot(c: Call) {
    c.phase == Granted || c.phase == Holding
  }

  /** How many calls hold a slot for key. */
  function Holders(calls: seq<Call>, k: Key): nat {
    if calls == [] then 0
    else
      var c := calls[|calls| - 1];
      Holders(calls[..|calls| - 1], k) + if c.key == k && HasSlot(c) then 1 else 0
  }

  function InUse(s: State, k: Key): int
    requires Known(s)
  {
    if k in s.gates then s.heap[s.gates[k]].inUse else 0
  }

  function Queue(s: State, k: Key): seq<nat>
    requires Known(s)
  {
    if k in s.gates then s.heap[s.gates[k]].waiting else []
  }

  ghost predicate Increasing(s: seq<nat>) {
    forall i, j :: 0 <= i < j < |s| ==> s[i] < s[j]
  }

  /** The books: inUse counts the calls holding a slot, and the queue is the
      waiting calls in order of arrival. */
  ghost predicate Balanced(s: State, k: Key)
    requires Known(s)
  {
    && InUse(s, k) == Holders(s.calls, k) && Increasing(Queue(s, k))
    && forall c :: 0 <= c < |s.calls| ==> (c in Queue(s, k) <==> s.calls[c].key == k && s.calls[c].phase == Waiting)
  }

  /** The gate a call that is not over captured is the one in the map. */
  ghost predicate Current(s: State, c: nat)
    requires c < |s.calls|
  {
    && (s.calls[c].phase != Over ==> s.calls[c].key in s.gates && s.gates[s.calls[c].key] == s.calls[c].gate)
    && (HasSlot(s.calls[c]) ==> s.calls[c].served) && (s.calls[c].phase == Waiting ==> !s.calls[c].served)
  }

  /** First come, first served: while a call waits, none that came later has
      been given a slot. */
  ghost predicate Fair(s: State, c: nat, d: nat)
    requires c < d < |s.calls|
  {
    s.calls[c].key == s.calls[d].key && s.calls[c].phase == Waiting ==> !s.calls[d].served
  }

  ghost predicate Distinct(gates: map<Key, nat>) {
    forall k, l :: k in gates && l in gates && k != l ==> gates[k] != gates[l]
  }

  /** All but that no gate in the map is idle. */
  ghost predicate Books(s: State) {
    && Known(s) && Distinct(s.gates)
    && (forall k :: Balanced(s, k))
    && (forall c :: 0 <= c < |s.calls| ==> Current(s, c))
    && (forall c, d :: 0 <= c < d < |s.calls| ==> Fair(s, c, d))
  }

  ghost predicate Lively(s: State, k: Key)
    requires Known(s)
  {
    k in s.gates ==> InUse(s, k) != 0 || Queue(s, k) != []
  }

  ghost predicate Inv(s: State) {
    Books(s) && forall k :: Lively(s, k)
  }

  // ---- Counting ----

  lemma {:induction false} HoldersUpdate(calls: seq<Call>, c: nat, v: Call, k: Key)
    requires c < |calls|
    ensures Holders(calls[c := v], k) ==
            Holders(calls, k) - (if calls[c].key == k && HasSlot(calls[c]) then 1 else 0) +
            (if v.key == k && HasSlot(v) then 1 else 0)
  {
    var init := calls[..|calls| - 1];
    if c == |calls| - 1 {
      assert calls[c := v][..|calls| - 1] == init;
    } else {
      HoldersUpdate(init, c, v, k);
      assert calls[c := v][..|calls| - 1] == init[c := v];
    }
  }

  lemma HoldersSnoc(calls: seq<Call>, v: Call, k: Key)
    ensures Holders(calls + [v], k) == Holders(calls, k) + if v.key == k && HasSlot(v) then 1 else 0
  {
    assert (calls + [v])[..|calls|] == calls;
  }

  lemma {:induction false} SomeHolder(calls: seq<Call>, c: nat)
    requires c < |calls| && HasSlot(calls[c])
    ensures Holders(calls, calls[c].key) >= 1
  {
    if c < |calls| - 1 {
      SomeHolder(calls[..|calls| - 1], c);
    }
  }

  // ---- Each change keeps the books ----

  lemma FirstWaits(s: State, k: Key)
    requires Books(s) && Queue(s, k) != []
    ensures var w := Queue(s, k)[0];
            k in s.gates && w < |s.calls| && s.calls[w].key == k && s.calls[w].phase == Waiting && Current(s, w)
  {
    assert Balanced(s, k) && Queue(s, k)[0] in Queue(s, k);
  }

  /** What a grant changes of a key's books. */
  lemma GrantParts(s: State, k: Key, l: Key)
    requires Books(s) && Queue(s, k) != []
    ensures var s' := Grant(s, s.gates[k]);
            && Known(s') && s'.gates == s.gates && |s'.calls| == |s.calls|
            && InUse(s', l) == InUse(s, l) + (if l == k then 1 else 0)
            && Queue(s', l) == (if l == k then Queue(s, k)[1..] else Queue(s, l))
            && Holders(s'.calls, l) == Holders(s.calls, l) + (if l == k then 1 else 0)
  {
    FirstWaits(s, k);
    var w := Queue(s, k)[0];
    HoldersUpdate(s.calls, w, Grant(s, s.gates[k]).calls[w], l);
  }

  lemma GrantBalanced(s: State, k: Key, l: Key)
    requires Books(s) && Queue(s, k) != []
    ensures Known(Grant(s, s.gates[k])) && Balanced(Grant(s, s.gates[k]), l)
  {
    var s' := Grant(s, s.gates[k]);
    assert Balanced(s, k) && Balanced(s, l);
    FirstWaits(s, k);
    hide InUse, Queue, Holders, Books, Current;
    GrantParts(s, k, l);
    var q := Queue(s, k);
    forall d | 0 <= d < |s'.calls|
      ensures d in Queue(s', l) <==> s'.calls[d].key == l && s'.calls[d].phase == Waiting
    {
      FirstGone(q, d);
    }
  }

  lemma FirstGone(q: seq<nat>, d: nat)
    requires q != [] && Increasing(q)
    ensures d in q[1..] <==> d in q && d != q[0]
  {
    assert q == [q[0]] + q[1..];
  }

  lemma GrantFair(s: State, k: Key, c: nat, d: nat)
    requires Books(s) && Queue(s, k) != [] && c < d < |s.calls|
    ensures Fair(Grant(s, s.gates[k]), c, d)
  {
    assert Fair(s, c, d) && Balanced(s, k);
    assert c in Queue(s, k) <==> s.calls[c].key == k && s.calls[c].phase == Waiting;
  }

  lemma GrantBooks(s: State, k: Key)
    requires Books(s) && Queue(s, k) != []
    ensures var s' := Grant(s, s.gates[k]); Books(s') && s'.gates == s.gates
  {
    hide Balanced, Fair, Distinct;
    FirstWaits(s, k);
    var s' := Grant(s, s.gates[k]);
    forall l ensures Known(s') && Balanced(s', l) {
      GrantBalanced(s, k, l);
    }
    forall c | 0 <= c < |s.calls| ensures Current(s', c) {
      assert Current(s, c);
    }
    forall c, d | 0 <= c < d < |s.calls| ensures Fair(s', c, d) {
      GrantFair(s, k, c, d);
    }
  }

  /** What one key's step leaves of the others. */
  ghost predicate Others(s: State, s': State, k: Key)
    requires Known(s) && Known(s')
  {
    && |s'.calls| >= |s.calls|
    && (forall l :: l != k ==>
          InUse(s', l) == InUse(s, l) && Queue(s', l) == Queue(s, l) && (l in s'.gates <==> l in s.gates))
    && (forall c :: 0 <= c < |s.calls| && s.calls[c].key != k ==> s'.calls[c] == s.calls[c])
  }

  lemma IdleOver(s: State, k: Key, c: nat)
    requires Books(s) && InUse(s, k) == 0 && Queue(s, k) == [] && c < |s.calls| && s.calls[c].key == k
    ensures s.calls[c].phase == Over
  {
    assert Balanced(s, k);
    if HasSlot(s.calls[c]) {
      SomeHolder(s.calls, c);
    }
  }

  lemma ForgetInv(s: State, k: Key)
    requires Books(s) && k in s.gates && forall l :: l != k ==> Lively(s, l)
    ensures var s' := Forget(s, k, s.gates[k]);
            && Inv(s') && Others(s, s', k) && s'.calls == s.calls
            && InUse(s', k) == InUse(s, k) && Queue(s', k) == Queue(s, k)
  {
    var s' := Forget(s, k, s.gates[k]);
    forall l ensures Balanced(s', l) && Lively(s', l) {
      assert Balanced(s, l) && Lively(s, k) == Lively(s, k) && (l != k ==> Lively(s, l));
    }
    forall c | 0 <= c < |s.calls| ensures Current(s', c) {
      assert Current(s, c);
      if s'.gates != s.gates && s.calls[c].key == k {
        IdleOver(s, k, c);
      }
    }
    forall c, d | 0 <= c < d < |s.calls| ensures Fair(s', c, d) {
      assert Fair(s, c, d);
    }
  }

  /** How many of the waiting get a slot. */
  function Grants(inUse: int, waiting: nat, limit: int): nat {
    if limit <= 0 then waiting
    else if limit <= inUse then 0
    else if limit - inUse < waiting then limit - inUse else waiting
  }

  lemma GrantOthers(s: State, k: Key)
    requires Books(s) && Queue(s, k) != []
    ensures var s' := Grant(s, s.gates[k]);
            && Known(s') && Others(s, s', k) && InUse(s', k) == InUse(s, k) + 1 && Queue(s', k) == Queue(s, k)[1..]
  {
    assert Balanced(s, k) && Queue(s, k)[0] in Queue(s, k);
  }

  lemma OthersTwice(s: State, s1: State, s2: State, k: Key)
    requires Known(s) && Known(s1) && Known(s2) && Others(s, s1, k) && Others(s1, s2, k)
    ensures Others(s, s2, k)
  {
  }

  /** A pump hands out exactly the slots there are, to the first in line. */
  lemma {:induction false} PumpInv(s: State, k: Key, limit: int)
    requires Books(s) && k in s.gates && forall l :: l != k ==> Lively(s, l)
    ensures var s' := Pump(s, k, s.gates[k], limit);
            var n := Grants(InUse(s, k), |Queue(s, k)|, limit);
            && Inv(s') && Others(s, s', k) && InUse(s', k) == InUse(s, k) + n && Queue(s', k) == Queue(s, k)[n..]
            && |s'.calls| == |s.calls|
    decreases |Queue(s, k)|
  {
    if Queue(s, k) != [] && Free(s.heap[s.gates[k]], limit) {
      var s1 := Grant(s, s.gates[k]);
      GrantBooks(s, k);
      GrantOthers(s, k);
      forall l | l != k ensures Lively(s1, l) {
        assert Lively(s, l);
      }
      PumpInv(s1, k, limit);
      OthersTwice(s, s1, Pump(s1, k, s1.gates[k], limit), k);
    } else {
      ForgetInv(s, k);
    }
  }

  // ---- Each step keeps the invariant ----

  lemma OpenedBooks(s: State, k: Key)
    requires Inv(s)
    ensures var s' := Opened(s, k);
            && Books(s') && k in s'.gates && (forall l :: l != k ==> Lively(s', l)) && Others(s, s', k)
            && InUse(s', k) == InUse(s, k) && Queue(s', k) == Queue(s, k) && s'.calls == s.calls
  {
    var s' := Opened(s, k);
    forall l ensures Balanced(s', l) && (l != k ==> Lively(s', l)) {
      assert Balanced(s, l) && Lively(s, l);
    }
    forall c | 0 <= c < |s.calls| ensures Current(s', c) {
      assert Current(s, c);
    }
    forall c, d | 0 <= c < d < |s.calls| ensures Fair(s', c, d) {
      assert Fair(s, c, d);
    }
  }

  /** A call that arrives gets a slot at once exactly when there is one and
      nobody waits; otherwise it goes to the end of the line. */
  lemma EnteredInv(s: State, k: Key, limit: int)
    requires Inv(s)
    ensures var s' := Entered(s, k, limit);
            && Inv(s') && Others(s, s', k) && |s'.calls| == |s.calls| + 1 && s'.calls[..|s.calls|] == s.calls
            && (if Queue(s, k) == [] && (limit <= 0 || InUse(s, k) < limit)
                then InUse(s', k) == InUse(s, k) + 1 && Queue(s', k) == [] && s'.calls[|s.calls|].phase == Holding
                else InUse(s', k) == InUse(s, k) && Queue(s', k) == Queue(s, k) + [|s.calls|] &&
                     s'.calls[|s.calls|].phase == Waiting)
  {
    OpenedBooks(s, k);
    EnteredOpened(s, k, limit);
    hide Books, Others, Lively, Opened, Entered;
    if Queue(s, k) == [] && (limit <= 0 || InUse(s, k) < limit) {
      AdmittedInv(Opened(s, k), k, limit);
    } else {
      LinedUpInv(Opened(s, k), k, limit);
    }
    OthersTwice(s, Opened(s, k), Entered(s, k, limit), k);
  }

  lemma EnteredOpened(s: State, k: Key, limit: int)
    requires Known(s)
    ensures Known(Opened(s, k)) && Entered(s, k, limit) == Entered(Opened(s, k), k, limit)
  {
  }

  /** The gate is there: a slot at once. */
  lemma AdmittedInv(s: State, k: Key, limit: int)
    requires Books(s) && k in s.gates && (forall l :: l != k ==> Lively(s, l))
    requires Queue(s, k) == [] && Free(s.heap[s.gates[k]], limit)
    ensures var s' := Entered(s, k, limit);
            && Inv(s') && Others(s, s', k) && |s'.calls| == |s.calls| + 1 && s'.calls[..|s.calls|] == s.calls
            && InUse(s', k) == InUse(s, k) + 1 && Queue(s', k) == [] && s'.calls[|s.calls|].phase == Holding
  {
    var s', id := Entered(s, k, limit), |s.calls|;
    forall l ensures Balanced(s', l) && Lively(s', l) {
      assert Balanced(s, l) && (l != k ==> Lively(s, l));
      HoldersSnoc(s.calls, s'.calls[id], l);
    }
    forall c | 0 <= c < |s'.calls| ensures Current(s', c) {
      assert c < id ==> Current(s, c);
    }
    forall c, d | 0 <= c < d < |s'.calls| ensures Fair(s', c, d) {
      assert (d < id ==> Fair(s, c, d)) && Balanced(s, k);
    }
  }

  lemma LinedUpParts(s: State, k: Key, limit: int, l: Key)
    requires Known(s) && k in s.gates && Distinct(s.gates)
    requires Queue(s, k) != [] || !Free(s.heap[s.gates[k]], limit)
    ensures var s' := Entered(s, k, limit);
            && InUse(s', l) == InUse(s, l) && (l in s'.gates <==> l in s.gates)
            && Queue(s', l) == (if l == k then Queue(s, k) + [|s.calls|] else Queue(s, l))
            && s'.calls == s.calls + [Call(k, s.gates[k], Waiting, false)]
            && Holders(s'.calls, l) == Holders(s.calls, l)
  {
    HoldersSnoc(s.calls, Call(k, s.gates[k], Waiting, false), l);
  }

  lemma QueueKnown(s: State, l: Key)
    requires Known(s)
    ensures forall i :: 0 <= i < |Queue(s, l)| ==> Queue(s, l)[i] < |s.calls|
  {
  }

  lemma LinedUpBalanced(s: State, k: Key, limit: int, l: Key)
    requires Known(s) && Distinct(s.gates) && k in s.gates && (l != k ==> Lively(s, l)) && Balanced(s, l)
    requires Queue(s, k) != [] || !Free(s.heap[s.gates[k]], limit)
    ensures Balanced(Entered(s, k, limit), l) && Lively(Entered(s, k, limit), l)
  {
    hide InUse, Holders, Entered, Known, Queue, Distinct;
    LinedUpParts(s, k, limit, l);
    var s', id := Entered(s, k, limit), |s.calls|;
    QueueKnown(s, l);
    forall c | 0 <= c < |s'.calls|
      ensures c in Queue(s', l) <==> s'.calls[c].key == l && s'.calls[c].phase == Waiting
    {
      assert c < id ==> s'.calls[c] == s.calls[c];
    }
  }

  /** The gate is there: the end of the line. */
  lemma LinedUpInv(s: State, k: Key, limit: int)
    requires Books(s) && k in s.gates && (forall l :: l != k ==> Lively(s, l))
    requires Queue(s, k) != [] || !Free(s.heap[s.gates[k]], limit)
    ensures var s' := Entered(s, k, limit);
            && Inv(s') && Others(s, s', k) && |s'.calls| == |s.calls| + 1 && s'.calls[..|s.calls|] == s.calls
            && InUse(s', k) == InUse(s, k) && Queue(s', k) == Queue(s, k) + [|s.calls|]
            && s'.calls[|s.calls|].phase == Waiting
  {
    var s', id := Entered(s, k, limit), |s.calls|;
    forall l ensures Balanced(s', l) && Lively(s', l) {
      assert Balanced(s, l) && (l != k ==> Lively(s, l));
      LinedUpBalanced(s, k, limit, l);
    }
    forall c | 0 <= c < |s'.calls| ensures Current(s', c) {
      assert c < id ==> Current(s, c);
    }
    forall c, d | 0 <= c < d < |s'.calls| ensures Fair(s', c, d) {
      assert d < id ==> Fair(s, c, d);
    }
  }

  lemma ToldInv(s: State, c: nat)
    requires Inv(s)
    ensures var s' := Told(s, c);
            Inv(s') && forall l :: InUse(s', l) == InUse(s, l) && Queue(s', l) == Queue(s, l)
    ensures c < |s.calls| && s.calls[c].phase == Granted ==> Told(s, c).calls[c].phase == Holding
  {
    var s' := Told(s, c);
    if s' != s {
      forall l ensures Balanced(s', l) && Lively(s', l) {
        assert Balanced(s, l) && Lively(s, l);
        HoldersUpdate(s.calls, c, s'.calls[c], l);
      }
      forall d | 0 <= d < |s.calls| ensures Current(s', d) {
        assert Current(s, d);
      }
      forall d, e | 0 <= d < e < |s.calls| ensures Fair(s', d, e) {
        assert Fair(s, d, e);
      }
    }
  }

  lemma FreedBooks(s: State, c: nat)
    requires Inv(s) && c < |s.calls| && HasSlot(s.calls[c])
    ensures s.calls[c].key in s.gates && s.gates[s.calls[c].key] == s.calls[c].gate
    ensures var k := s.calls[c].key; var s' := Freed(s, c, s.gates[k]);
            && Books(s') && s'.gates == s.gates && (forall l :: l != k ==> Lively(s', l)) && Others(s, s', k)
            && InUse(s', k) == InUse(s, k) - 1 && Queue(s', k) == Queue(s, k)
  {
    assert Current(s, c);
    var k := s.calls[c].key;
    var s' := Freed(s, c, s.gates[k]);
    forall l ensures Balanced(s', l) && (l != k ==> Lively(s', l)) {
      assert Balanced(s, l) && Lively(s, l);
      HoldersUpdate(s.calls, c, s'.calls[c], l);
    }
    forall d | 0 <= d < |s.calls| ensures Current(s', d) {
      assert Current(s, d);
    }
    forall d, e | 0 <= d < e < |s.calls| ensures Fair(s', d, e) {
      assert Fair(s, d, e);
    }
  }

  lemma {:induction false} WithoutMember(ws: seq<nat>, w: nat, x: nat)
    requires Increasing(ws)
    ensures x in Without(ws, w) <==> x in ws && x != w
  {
    if ws != [] {
      assert ws == [ws[0]] + ws[1..];
      if ws[0] != w {
        WithoutMember(ws[1..], w, x);
      }
    }
  }

  lemma {:induction false} WithoutIncreases(ws: seq<nat>, w: nat)
    requires Increasing(ws)
    ensures Increasing(Without(ws, w))
  {
    if ws != [] && ws[0] != w {
      WithoutIncreases(ws[1..], w);
      var rest := Without(ws[1..], w);
      forall i | 0 <= i < |rest| ensures ws[0] < rest[i] {
        var j :| 0 <= j < |ws[1..]| && ws[1..][j] == rest[i];
        assert ws[j + 1] == rest[i];
      }
      PutFirst(ws[0], rest);
    }
  }

  lemma PutFirst(x: nat, rest: seq<nat>)
    requires Increasing(rest) && forall i :: 0 <= i < |rest| ==> x < rest[i]
    ensures Increasing([x] + rest)
  {
    var q := [x] + rest;
    forall i, j | 0 <= i < j < |q| ensures q[i] < q[j] {
      assert q[j] == rest[j - 1];
    }
  }

  /** What giving up changes of a key's books. */
  lemma GivenUpParts(s: State, c: nat, l: Key)
    requires Inv(s) && c < |s.calls| && s.calls[c].phase == Waiting
    ensures var k, s' := s.calls[c].key, GivenUp(s, c);
            && InUse(s', l) == InUse(s, l) && Queue(s', l) == (if l == k then Without(Queue(s, k), c) else Queue(s, l))
            && Holders(s'.calls, l) == Holders(s.calls, l) && (l in s'.gates <==> l in s.gates)
  {
    assert Current(s, c);
    HoldersUpdate(s.calls, c, GivenUp(s, c).calls[c], l);
  }

  lemma BooksAt(s: State, l: Key)
    requires Inv(s)
    ensures Known(s) && Balanced(s, l) && Lively(s, l)
  {
  }

  lemma GivenUpLeaves(s: State, c: nat)
    requires Known(s) && c < |s.calls|
    ensures GivenUp(s, c).calls == s.calls[c := s.calls[c].(phase := Over)] && GivenUp(s, c).gates == s.gates
  {
  }

  lemma GivenUpBalanced(s: State, c: nat, l: Key)
    requires Inv(s) && c < |s.calls| && s.calls[c].phase == Waiting
    ensures var k, s' := s.calls[c].key, GivenUp(s, c);
            && Balanced(s', l) && (l != k ==> Lively(s', l))
            && InUse(s', l) == InUse(s, l) && Queue(s', l) == if l == k then Without(Queue(s, k), c) else Queue(s, l)
  {
    hide InUse, Queue, Holders, Without, Inv, Books, GivenUp, Known;
    BooksAt(s, s.calls[c].key);
    BooksAt(s, l);
    var k, s' := s.calls[c].key, GivenUp(s, c);
    GivenUpLeaves(s, c);
    GivenUpParts(s, c, l);
    WithoutIncreases(Queue(s, k), c);
    forall d | 0 <= d < |s'.calls|
      ensures d in Queue(s', l) <==> s'.calls[d].key == l && s'.calls[d].phase == Waiting
    {
      WithoutMember(Queue(s, k), c, d);
    }
  }

  lemma GivenUpBooks(s: State, c: nat)
    requires Inv(s) && c < |s.calls| && s.calls[c].phase == Waiting
    ensures s.calls[c].key in s.gates && s.gates[s.calls[c].key] == s.calls[c].gate
    ensures var k, s' := s.calls[c].key, GivenUp(s, c);
            && Books(s') && s'.gates == s.gates && (forall l :: l != k ==> Lively(s', l)) && Others(s, s', k)
            && InUse(s', k) == InUse(s, k) && Queue(s', k) == Without(Queue(s, k), c)
  {
    assert Current(s, c);
    var k, s' := s.calls[c].key, GivenUp(s, c);
    forall l
      ensures Known(s') && Balanced(s', l) && (l != k ==> Lively(s', l)) && InUse(s', l) == InUse(s, l)
      ensures Queue(s', l) == if l == k then Without(Queue(s, k), c) else Queue(s, l)
    {
      GivenUpBalanced(s, c, l);
    }
    forall d | 0 <= d < |s.calls| ensures Current(s', d) {
      assert Current(s, d);
    }
    forall d, e | 0 <= d < e < |s.calls| ensures Fair(s', d, e) {
      assert Fair(s, d, e);
    }
  }

  /** A waiting call that gives up leaves the line as it was without it; one
      that had been given a slot passes it on. */
  lemma CancelledInv(s: State, c: nat, limits: Limits)
    requires Inv(s) && c < |s.calls|
    ensures var s', k := Cancelled(s, c, limits), s.calls[c].key;
            && Inv(s') && Others(s, s', k)
            && (s.calls[c].phase == Waiting ==> InUse(s', k) == InUse(s, k) && Queue(s', k) == Without(Queue(s, k), c))
            && (s.calls[c].phase == Granted ==> HandedOn(s, s', k, limits(k)))
            && (s.calls[c].phase == Holding || s.calls[c].phase == Over ==> s' == s)
  {
    var k := s.calls[c].key;
    hide Books, Others, Lively;
    if s.calls[c].phase == Granted {
      FreedBooks(s, c);
      var s1 := Freed(s, c, s.gates[k]);
      PumpInv(s1, k, limits(k));
      OthersTwice(s, s1, Pump(s1, k, s1.gates[k], limits(k)), k);
    } else if s.calls[c].phase == Waiting {
      GivenUpBooks(s, c);
      ForgetInv(GivenUp(s, c), k);
      OthersTwice(s, GivenUp(s, c), Cancelled(s, c, limits), k);
    } else {
      OthersSame(s, k);
    }
  }

  lemma OthersSame(s: State, k: Key)
    requires Known(s)
    ensures Others(s, s, k)
  {
  }

  /** One slot came free, and goes to the first in line if the limit allows. */
  ghost predicate HandedOn(s: State, s': State, k: Key, limit: int)
    requires Known(s) && Known(s')
  {
    var n := Grants(InUse(s, k) - 1, |Queue(s, k)|, limit);
    InUse(s', k) == InUse(s, k) - 1 + n && Queue(s', k) == Queue(s, k)[n..]
  }

  /** A release gives the slot on the first time and does nothing after. */
  lemma ReleasedInv(s: State, c: nat, limits: Limits)
    requires Inv(s) && c < |s.calls|
    ensures var s', k := Released(s, c, limits), s.calls[c].key;
            && Inv(s') && Others(s, s', k)
            && (if s.calls[c].phase == Holding then HandedOn(s, s', k, limits(k)) else s' == s)
  {
    var k := s.calls[c].key;
    hide Books, Others, Lively;
    if s.calls[c].phase == Holding {
      FreedBooks(s, c);
      var s1 := Freed(s, c, s.gates[k]);
      PumpInv(s1, k, limits(k));
      OthersTwice(s, s1, Pump(s1, k, s1.gates[k], limits(k)), k);
    } else {
      OthersSame(s, k);
    }
  }

  lemma PumpKeyInv(s: State, k: Key, limit: int)
    requires Inv(s) && k in s.gates
    ensures var s' := Pump(s, k, s.gates[k], limit); var n := Grants(InUse(s, k), |Queue(s, k)|, limit);
            Inv(s') && Others(s, s', k) && InUse(s', k) == InUse(s, k) + n && Queue(s', k) == Queue(s, k)[n..]
  {
    PumpInv(s, k, limit);
  }

  lemma {:induction false} PumpedInv(s: State, order: seq<Key>, limits: Limits)
    requires Inv(s)
    ensures Inv(Pumped(s, order, limits))
  {
    if order != [] {
      PumpedInv(s, order[..|order| - 1], limits);
      var s1, k := Pumped(s, order[..|order| - 1], limits), order[|order| - 1];
      if k in s1.gates {
        PumpKeyInv(s1, k, limits(k));
      }
    }
  }

  lemma StepInv(s: State, op: Op, limits: Limits)
    requires Inv(s)
    ensures Inv(Step(s, op, limits))
  {
    hide Books, Lively, Others;
    match op {
      case Enter(k) => EnteredInv(s, k, limits(k));
      case Tell(c) => ToldInv(s, c);
      case Cancel(c) => if c < |s.calls| { CancelledInv(s, c, limits); }
      case Release(c) => if c < |s.calls| { ReleasedInv(s, c, limits); }
      case Changed(order) => PumpedInv(s, order, limits);
    }
  }

  lemma {:induction false} RunInv(events: seq<Event>)
    ensures Inv(Run(events))
  {
    if events == [] {
      assert Inv(INITIAL);
    } else {
      hide Inv;
      var e := events[|events| - 1];
      RunInv(events[..|events| - 1]);
      StepInv(Run(events[..|events| - 1]), e.op, e.limits);
    }
  }

  // ---- Over every run ----

  /** Whatever the interleaving, inUse counts the calls that were given a slot
      and have not given it back, and the gate any unfinished call works on is
      the one in the map. */
  lemma Accounting(events: seq<Event>, k: Key, c: nat)
    ensures var s := Run(events);
            && InUse(s, k) == Holders(s.calls, k)
            && (c < |s.calls| && s.calls[c].phase != Over ==>
                  s.calls[c].key in s.gates && s.gates[s.calls[c].key] == s.calls[c].gate)
            && (k in s.gates <==> InUse(s, k) != 0 || Queue(s, k) != [])
  {
    RunInv(events);
    var s := Run(events);
    assert Balanced(s, k) && Lively(s, k);
    if c < |s.calls| {
      assert Current(s, c);
    }
  }

  /** While a call waits, no later call for the same model has been given a
      slot. */
  lemma FirstComeFirstServed(events: seq<Event>, c: nat, d: nat)
    requires var s := Run(events);
             c < d < |s.calls| && s.calls[c].key == s.calls[d].key && s.calls[c].phase == Waiting
    ensures !Run(events).calls[d].served
  {
    RunInv(events);
    assert Fair(Run(events), c, d);
  }

  /** What a step does to one key's books. */
  lemma {:induction false} PumpedKey(s: State, order: seq<Key>, limits: Limits, k: Key)
    requires Inv(s)
    ensures var s' := Pumped(s, order, limits); var n := Grants(InUse(s, k), |Queue(s, k)|, limits(k));
            Inv(s') && if k in order then InUse(s', k) == InUse(s, k) + n && Queue(s', k) == Queue(s, k)[n..]
                       else InUse(s', k) == InUse(s, k) && Queue(s', k) == Queue(s, k)
  {
    if order != [] {
      var init, l := order[..|order| - 1], order[|order| - 1];
      PumpedKey(s, init, limits, k);
      var s1 := Pumped(s, init, limits);
      assert k in order <==> k in init || k == l;
      if l in s1.gates {
        PumpKeyInv(s1, l, limits(l));
      }
    }
  }

  /** The calls in flight rise only below the limit then in force. */
  lemma RisesWithin(s: State, op: Op, limits: Limits, k: Key)
    requires Inv(s)
    ensures var s' := Step(s, op, limits);
            InUse(s', k) <= InUse(s, k) || limits(k) <= 0 || InUse(s', k) <= limits(k)
  {
    hide Books, Lively, Balanced;
    match op {
      case Enter(l) => EnteredInv(s, l, limits(l));
      case Tell(c) => ToldInv(s, c);
      case Cancel(c) => if c < |s.calls| { CancelledInv(s, c, limits); }
      case Release(c) => if c < |s.calls| { ReleasedInv(s, c, limits); }
      case Changed(order) => PumpedKey(s, order, limits, k);
    }
  }

  /** So a limit that stays the same is never exceeded. */
  lemma {:induction false} NeverOverLimit(events: seq<Event>, k: Key, limit: int)
    requires limit > 0 && forall i :: 0 <= i < |events| ==> events[i].limits(k) == limit
    ensures InUse(Run(events), k) <= limit
  {
    if events != [] {
      var e := events[|events| - 1];
      NeverOverLimit(events[..|events| - 1], k, limit);
      RunInv(events[..|events| - 1]);
      RisesWithin(Run(events[..|events| - 1]), e.op, e.limits, k);
    }
  }

  /** Nobody waits while a slot is free. */
  predicate Full(s: State, k: Key, limit: int)
    requires Known(s)
  {
    Queue(s, k) != [] ==> 0 < limit <= InUse(s, k)
  }

  lemma StaysFull(s: State, op: Op, limits: Limits, k: Key)
    requires Inv(s) && Full(s, k, limits(k))
    ensures Full(Step(s, op, limits), k, limits(k))
  {
    hide Books, Lively, Balanced;
    match op {
      case Enter(l) => EnteredInv(s, l, limits(l));
      case Tell(c) => ToldInv(s, c);
      case Cancel(c) =>
        if c < |s.calls| {
          CancelledInv(s, c, limits);
        }
      case Release(c) => if c < |s.calls| { ReleasedInv(s, c, limits); }
      case Changed(order) => PumpedKey(s, order, limits, k);
    }
  }

  /** A step that pumps k's gate: a release, a granted call that gives up, or
      Changed when it comes to k. */
  predicate PumpsKey(s: State, op: Op, k: Key) {
    match op
    case Release(c) => c < |s.calls| && s.calls[c].phase == Holding && s.calls[c].key == k
    case Cancel(c) => c < |s.calls| && s.calls[c].phase == Granted && s.calls[c].key == k
    case Changed(order) => k in s.gates ==> k in order
    case _ => false
  }

  /** Whatever the limit was before, and however many slots a raised one
      opened, a pump leaves nobody waiting with a slot free under the limit it
      looks up. */
  lemma {:induction false} PumpFills(s: State, op: Op, limits: Limits, k: Key)
    requires Inv(s) && PumpsKey(s, op, k)
    ensures Full(Step(s, op, limits), k, limits(k))
  {
    hide Books, Lively, Balanced;
    match op {
      case Release(c) => ReleasedInv(s, c, limits);
      case Cancel(c) => CancelledInv(s, c, limits);
      case Changed(order) => PumpedKey(s, order, limits, k);
    }
  }

  /** Changed, whatever order it walks the map in, hands out every free slot. */
  lemma {:induction false} ChangedFills(s: State, order: seq<Key>, limits: Limits, k: Key)
    requires Inv(s) && forall l :: l in s.gates ==> l in order
    ensures Full(Step(s, Changed(order), limits), k, limits(k))
  {
    hide Inv, Full, Step;
    PumpFills(s, Changed(order), limits, k);
  }

  /** A slot given back is never lost: as long as a model's limit has not
      changed since the start, or since its gate was last pumped, nobody waits
      for it while a slot is free. */
  lemma {:induction false} NoSlotLost(events: seq<Event>, m: nat, k: Key, limit: int)
    requires m <= |events| && forall i :: m <= i < |events| ==> events[i].limits(k) == limit
    requires m > 0 ==> events[m - 1].limits(k) == limit && PumpsKey(Run(events[..m - 1]), events[m - 1].op, k)
    ensures Full(Run(events), k, limit)
  {
    if m < |events| {
      var init, e := events[..|events| - 1], events[|events| - 1];
      assert m > 0 ==> init[..m - 1] == events[..m - 1] && init[m - 1] == events[m - 1];
      NoSlotLost(init, m, k, limit);
      RunInv(init);
      StaysFull(Run(init), e.op, e.limits, k);
    } else if m > 0 {
      RunInv(events[..m - 1]);
      PumpFills(Run(events[..m - 1]), events[m - 1].op, events[m - 1].limits, k);
    }
  }

  // ---- What a step leaves of the calls ----

  /** Nothing happens to any call but that some of the waiting get a slot. */
  ghost predicate OnlyGrants(s: State, s': State) {
    && |s'.calls| == |s.calls|
    && forall d :: 0 <= d < |s.calls| ==>
         s'.calls[d] == s.calls[d] ||
         (s.calls[d].phase == Waiting && s'.calls[d] == s.calls[d].(phase := Granted, served := true))
  }

  lemma {:induction false} PumpOnlyGrants(s: State, k: Key, limit: int)
    requires Books(s) && k in s.gates
    ensures OnlyGrants(s, Pump(s, k, s.gates[k], limit))
    decreases |Queue(s, k)|
  {
    if Queue(s, k) != [] && Free(s.heap[s.gates[k]], limit) {
      FirstWaits(s, k);
      GrantBooks(s, k);
      PumpOnlyGrants(Grant(s, s.gates[k]), k, limit);
    }
  }

  /** A call that ended, and the rest left alone but for grants. */
  ghost predicate OnlyEnds(s: State, s': State, c: nat)
    requires c < |s.calls|
  {
    && |s'.calls| == |s.calls| && s'.calls[c] == s.calls[c].(phase := Over)
    && forall d :: 0 <= d < |s.calls| && d != c ==>
         s'.calls[d] == s.calls[d] ||
         (s.calls[d].phase == Waiting && s'.calls[d] == s.calls[d].(phase := Granted, served := true))
  }

  lemma CancelledOnlyEnds(s: State, c: nat, limits: Limits)
    requires Inv(s) && c < |s.calls| && (s.calls[c].phase == Waiting || s.calls[c].phase == Granted)
    ensures OnlyEnds(s, Cancelled(s, c, limits), c)
  {
    if s.calls[c].phase == Granted {
      var k := s.calls[c].key;
      FreedBooks(s, c);
      PumpOnlyGrants(Freed(s, c, s.gates[k]), k, limits(k));
    }
  }

  lemma ReleasedOnlyEnds(s: State, c: nat, limits: Limits)
    requires Inv(s) && c < |s.calls| && s.calls[c].phase == Holding
    ensures OnlyEnds(s, Released(s, c, limits), c)
  {
    var k := s.calls[c].key;
    FreedBooks(s, c);
    PumpOnlyGrants(Freed(s, c, s.gates[k]), k, limits(k));
  }

  // ---- Walking the map ----

  lemma PumpedNone(s: State, limits: Limits)
    requires Known(s)
    ensures Pumped(s, [], limits) == s
  {
  }

  lemma PumpedOneMore(s: State, order: seq<Key>, k: Key, limits: Limits)
    requires Known(s)
    ensures Pumped(s, order + [k], limits) == PumpedOne(Pumped(s, order, limits), k, limits)
  {
    assert (order + [k])[..|order|] == order;
  }

  /** Every key has been visited, but those left. */
  ghost predicate Walked(keys: set<Key>, order: seq<Key>, left: set<Key>) {
    forall k :: k in keys ==> k in order || k in left
  }

  lemma WalkNone(keys: set<Key>)
    ensures Walked(keys, [], keys)
  {
  }

  lemma WalkOneMore(keys: set<Key>, order: seq<Key>, left: set<Key>, k: Key)
    requires Walked(keys, order, left)
    ensures Walked(keys, order + [k], left - {k})
  {
    forall l | l in keys ensures l in order + [k] || l in left - {k} {
      assert l in order || l in left;
      assert (order + [k])[|order|] == k;
    }
  }
}
