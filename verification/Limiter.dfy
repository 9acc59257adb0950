/** The limiter as the server keeps it: gates and waiters changed in place,
    each method one section under its mutex. */
module Limiter {
  import S = Slots

  /** A call waiting for a slot. */
  class Waiter {
    ghost const id: nat
    var granted: bool

    constructor (ghost id: nat)
      ensures this.id == id && !granted
    {
      this.id, granted := id, false;
    }
  }

  /** One provider and model's slots. */
  class Gate {
    ghost const id: nat
    var inUse: int
    var waiting: seq<Waiter>

    constructor (ghost id: nat)
      ensures this.id == id && inUse == 0 && waiting == []
    {
      this.id, inUse, waiting := id, 0, [];
    }
  }

  /** What Acquire hands back to give the slot up with. */
  class Releaser {
    const key: S.Key
    ghost const call: nat
    var done: bool

    constructor (key: S.Key, ghost call: nat)
      ensures this.key == key && this.call == call && !done
    {
      this.key, this.call, done := key, call, false;
    }
  }

  ghost function Ids(ws: seq<Waiter>): seq<nat> {
    seq(|ws|, i requires 0 <= i < |ws| => ws[i].id)
  }

  lemma WithoutAt(ids: seq<nat>, w: nat, i: nat)
    requires i <= |ids| && w !in ids[..i] && (i < |ids| ==> ids[i] == w)
    ensures S.Without(ids, w) == if i < |ids| then ids[..i] + ids[i + 1..] else ids
  {
    if i < |ids| {
      WithoutFirst(ids[..i], w, ids[i + 1..]);
      assert ids == ids[..i] + [w] + ids[i + 1..];
    } else {
      assert ids[..i] == ids;
      WithoutNone(ids, w);
    }
  }

  lemma {:induction false} WithoutFirst(front: seq<nat>, w: nat, rest: seq<nat>)
    requires w !in front
    ensures S.Without(front + [w] + rest, w) == front + rest
  {
    var all := front + [w] + rest;
    if front == [] {
      assert all[1..] == rest && front + rest == rest;
    } else {
      WithoutFirst(front[1..], w, rest);
      assert all[1..] == front[1..] + [w] + rest;
      assert front + rest == [front[0]] + (front[1..] + rest);
    }
  }

  lemma {:induction false} WithoutNone(ids: seq<nat>, w: nat)
    requires w !in ids
    ensures S.Without(ids, w) == ids
  {
    if ids != [] {
      WithoutNone(ids[1..], w);
      assert ids == [ids[0]] + ids[1..];
    }
  }

  method RemoveWaiter(ws: seq<Waiter>, w: Waiter) returns (out: seq<Waiter>)
    requires forall x :: x in ws && x.id == w.id ==> x == w
    ensures Ids(out) == S.Without(Ids(ws), w.id) && forall x :: x in out ==> x in ws
  {
    var i := 0;
    while i < |ws|
      invariant 0 <= i <= |ws| && forall j :: 0 <= j < i ==> ws[j].id != w.id
    {
      if ws[i] == w {
        WithoutAt(Ids(ws), w.id, i);
        out := ws[..i] + ws[i + 1..];
        assert Ids(out) == Ids(ws)[..i] + Ids(ws)[i + 1..];
        return;
      }
      assert ws[i] in ws;
      i := i + 1;
    }
    WithoutAt(Ids(ws), w.id, i);
    out := ws;
  }

  class Limiter {
    var gates: map<S.Key, Gate>
    ghost var state: S.State
    ghost var gateOf: seq<Gate>
    ghost var waiterOf: map<nat, Waiter>
    ghost var releaserOf: map<nat, Releaser>

    constructor ()
      ensures Valid() && state == S.INITIAL
    {
      gates, state, gateOf, waiterOf, releaserOf := map[], S.INITIAL, [], map[], map[];
    }

    /** Gate object g is gate i of the state. */
    ghost predicate GateIs(i: nat)
      requires i < |gateOf| && i < |state.heap|
      reads this`gateOf, this`state, gateOf
    {
      gateOf[i].id == i && gateOf[i].inUse == state.heap[i].inUse && Ids(gateOf[i].waiting) == state.heap[i].waiting
    }

    ghost predicate WaiterIs(c: nat)
      requires c in waiterOf
      reads this`waiterOf, this`state, waiterOf.Values
    {
      waiterOf[c].id == c && c < |state.calls| && waiterOf[c].granted == state.calls[c].served
    }

    /** The objects are the state's. */
    ghost predicate Tied()
      reads this`gates, this`state, this`gateOf, this`waiterOf, gateOf, waiterOf.Values
    {
      && S.Known(state) && |gateOf| == |state.heap| && gates.Keys == state.gates.Keys
      && (forall i :: 0 <= i < |gateOf| ==> GateIs(i))
      && (forall k :: k in gates ==> gates[k] == gateOf[state.gates[k]])
      && (forall c :: c in waiterOf ==> WaiterIs(c))
      && (forall i, w :: 0 <= i < |gateOf| && w in gateOf[i].waiting ==> w.id in waiterOf && waiterOf[w.id] == w)
    }

    /** Call c's release, which has been called once the call is over. */
    ghost predicate ReleaserIs(c: nat)
      requires c in releaserOf
      reads this`releaserOf, this`state, releaserOf.Values
    {
      && releaserOf[c].call == c && c < |state.calls| && releaserOf[c].key == state.calls[c].key
      && state.calls[c].phase == if releaserOf[c].done then S.Over else S.Holding
    }

    /** Every call that holds a slot was handed its release. */
    ghost predicate Issued()
      reads this`releaserOf, this`state, releaserOf.Values
    {
      && (forall c :: c in releaserOf ==> ReleaserIs(c))
      && (forall c :: 0 <= c < |state.calls| && state.calls[c].phase == S.Holding ==> c in releaserOf)
    }

    ghost predicate Valid()
      reads this, gateOf, waiterOf.Values, releaserOf.Values
    {
      S.Inv(state) && Tied() && Issued()
    }

    /** g is one of this limiter's gates. */
    ghost predicate Mine(g: Gate)
      reads this`gateOf
    {
      g.id < |gateOf| && gateOf[g.id] == g
    }

    method Forget(key: S.Key, g: Gate)
      requires Tied() && Mine(g)
      modifies this`gates, this`state
      ensures Tied() && state == S.Forget(old(state), key, g.id)
    {
      assert GateIs(g.id);
      if g.inUse == 0 && |g.waiting| == 0 {
        gates := gates - {key};
        state := state.(gates := state.gates - {key});
      }
      forall i | 0 <= i < |gateOf| ensures GateIs(i) {
        assert old(GateIs(i));
      }
      forall c | c in waiterOf ensures WaiterIs(c) {
        assert old(WaiterIs(c));
      }
    }

    /** The pump's loop body: the first in line gets a slot. */
    method Grant(g: Gate, w: Waiter)
      requires Tied() && Mine(g) && g.waiting != [] && w == g.waiting[0] && state.heap[g.id].waiting == Ids(g.waiting)
      modifies this`state, g, w
      ensures Tied() && Mine(g) && state == S.Grant(old(state), g.id) && g.waiting == old(g.waiting)[1..]
    {
      assert GateIs(g.id) && g.waiting[0] in g.waiting && WaiterIs(w.id);
      assert Ids(g.waiting)[0] == w.id && Ids(g.waiting[1..]) == Ids(g.waiting)[1..];
      g.waiting := g.waiting[1..];
      g.inUse := g.inUse + 1;
      w.granted := true;
      state := S.Grant(state, g.id);
      forall i | 0 <= i < |gateOf| ensures GateIs(i) {
        assert old(GateIs(i));
      }
      forall c | c in waiterOf ensures WaiterIs(c) {
        assert old(WaiterIs(c));
      }
      forall i, x | 0 <= i < |gateOf| && x in gateOf[i].waiting ensures x.id in waiterOf && waiterOf[x.id] == x {
        assert x in old(gateOf[i].waiting);
      }
    }

    /** Free slots go to waiters in order. */
    method Pump(key: S.Key, g: Gate, limit: int)
      requires Tied() && Mine(g)
      modifies this`gates, this`state, g, waiterOf.Values
      ensures Tied() && state == S.Pump(old(state), key, g.id, limit)
    {
      assert GateIs(g.id);
      while |g.waiting| > 0 && (limit <= 0 || g.inUse < limit)
        invariant Tied() && Mine(g) && gates == old(gates)
        invariant S.Pump(state, key, g.id, limit) == S.Pump(old(state), key, g.id, limit)
        decreases |g.waiting|
      {
        assert GateIs(g.id) && g.waiting[0] in g.waiting;
        Grant(g, g.waiting[0]);
      }
      assert GateIs(g.id);
      Forget(key, g);
    }

    // ---- What callers do ----

    /** The gate for key, made if there is none. */
    method Open(key: S.Key) returns (g: Gate)
      requires Tied()
      modifies this`gates, this`state, this`gateOf
      ensures Tied() && Mine(g) && state == S.Opened(old(state), key) && key in state.gates && state.gates[key] == g.id
      ensures state.calls == old(state).calls && (g in old(gateOf) || fresh(g))
    {
      if key in gates {
        g := gates[key];
        assert GateIs(state.gates[key]);
      } else {
        g := new Gate(|gateOf|);
        gates := gates[key := g];
        gateOf := gateOf + [g];
        state := S.Opened(state, key);
        forall i | 0 <= i < |gateOf| ensures GateIs(i) {
          assert i < |old(gateOf)| ==> old(GateIs(i));
        }
        forall c | c in waiterOf ensures WaiterIs(c) {
          assert old(WaiterIs(c));
        }
      }
    }

    /** Acquire up to where it may have to wait. With a slot free and nobody
        waiting it returns the release; otherwise w waits at gate g. */
    method Acquire(key: S.Key, limit: int) returns (g: Gate, w: Waiter?, r: Releaser?, ghost c: nat)
      requires Valid()
      modifies this, gateOf
      ensures Valid() && c == |old(state).calls| && state == S.Entered(old(state), key, limit)
      ensures Mine(g) && state.calls[c].gate == g.id && state.calls[c].key == key
      ensures if state.calls[c].phase == S.Holding
              then w == null && r != null && c in releaserOf && releaserOf[c] == r && !r.done
              else r == null && w != null && c in waiterOf && waiterOf[c] == w
    {
      hide S.Inv, S.Others, S.Entered, Tied;
      S.EnteredInv(state, key, limit);
      c := |state.calls|;
      r := null;
      g, w := TakeOrLine(key, limit);
      forall d | d in releaserOf ensures d < c && ReleaserIs(d) {
        assert old(ReleaserIs(d));
      }
      if w == null {
        r := new Releaser(key, c);
        releaserOf := releaserOf[c := r];
      }
    }

    method TakeOrLine(key: S.Key, limit: int) returns (g: Gate, w: Waiter?)
      requires Tied()
      modifies this`gates, this`state, this`gateOf, this`waiterOf, gateOf
      ensures Tied() && Mine(g) && state == S.Entered(old(state), key, limit)
      ensures var c := |old(state).calls|;
              && c < |state.calls| && state.calls[c].gate == g.id && state.calls[c].key == key
              && if state.calls[c].phase == S.Holding then w == null
                 else w != null && c in waiterOf && waiterOf[c] == w
    {
      hide S.Opened;
      w := null;
      g := Open(key);
      assert GateIs(g.id);
      if |g.waiting| == 0 && (limit <= 0 || g.inUse < limit) {
        TakeSlot(key, g);
      } else {
        w := Line(key, g);
      }
    }

    method TakeSlot(key: S.Key, g: Gate)
      requires Tied() && Mine(g) && GateIs(g.id)
      modifies this`state, g`inUse
      ensures Tied() && GateIs(g.id)
      ensures var s := old(state);
              state == s.(heap := s.heap[g.id := s.heap[g.id].(inUse := s.heap[g.id].inUse + 1)],
                          calls := s.calls + [S.Call(key, g.id, S.Holding, true)])
    {
      g.inUse := g.inUse + 1;
      state := state.(heap := state.heap[g.id := state.heap[g.id].(inUse := state.heap[g.id].inUse + 1)],
                      calls := state.calls + [S.Call(key, g.id, S.Holding, true)]);
      forall i | 0 <= i < |gateOf| ensures GateIs(i) {
        assert old(GateIs(i));
      }
      forall c | c in waiterOf ensures WaiterIs(c) {
        assert old(WaiterIs(c));
      }
    }

    method Line(key: S.Key, g: Gate) returns (w: Waiter)
      requires Tied() && Mine(g) && GateIs(g.id)
      modifies this`state, this`waiterOf, g`waiting
      ensures Tied() && GateIs(g.id) && |old(state).calls| in waiterOf && waiterOf[|old(state).calls|] == w
      ensures var s := old(state);
              state == s.(heap := s.heap[g.id := s.heap[g.id].(waiting := s.heap[g.id].waiting + [|s.calls|])],
                          calls := s.calls + [S.Call(key, g.id, S.Waiting, false)])
    {
      var c: nat := |state.calls|;
      w := new Waiter(c);
      g.waiting := g.waiting + [w];
      waiterOf := waiterOf[c := w];
      state := state.(heap := state.heap[g.id := state.heap[g.id].(waiting := state.heap[g.id].waiting + [c])],
                      calls := state.calls + [S.Call(key, g.id, S.Waiting, false)]);
      assert Ids(g.waiting) == Ids(old(g.waiting)) + [c];
      forall i | 0 <= i < |gateOf| ensures GateIs(i) {
        assert old(GateIs(i));
      }
      forall d | d in waiterOf ensures WaiterIs(d) {
        assert d != c ==> d in old(waiterOf) && old(WaiterIs(d));
      }
    }

    /** A slot given to call c is counted free again. */
    method FreeSlot(g: Gate, ghost c: nat)
      requires Tied() && Mine(g) && c < |state.calls|
      modifies this`state, g`inUse
      ensures Tied() && Mine(g) && state == S.Freed(old(state), c, g.id)
    {
      assert GateIs(g.id);
      g.inUse := g.inUse - 1;
      state := S.Freed(state, c, g.id);
      forall i | 0 <= i < |gateOf| ensures GateIs(i) {
        assert old(GateIs(i));
      }
      forall d | d in waiterOf ensures WaiterIs(d) {
        assert old(WaiterIs(d));
      }
    }

    method LeaveLine(g: Gate, w: Waiter)
      requires Tied() && Mine(g) && w.id in waiterOf && waiterOf[w.id] == w
      requires w.id < |state.calls| && state.calls[w.id].gate == g.id
      modifies this`state, g`waiting
      ensures Tied() && Mine(g) && state == S.GivenUp(old(state), w.id)
    {
      assert GateIs(g.id);
      g.waiting := RemoveWaiter(g.waiting, w);
      state := S.GivenUp(state, w.id);
      forall i | 0 <= i < |gateOf| ensures GateIs(i) {
        assert old(GateIs(i));
      }
      forall d | d in waiterOf ensures WaiterIs(d) {
        assert old(WaiterIs(d));
      }
    }

    /** A waiting Acquire whose context ends, at the gate it captured. */
    method GiveUp(key: S.Key, g: Gate, w: Waiter, limits: S.Limits)
      requires Valid() && Mine(g) && w.id in waiterOf && waiterOf[w.id] == w && w.id < |state.calls|
      requires state.calls[w.id].key == key && state.calls[w.id].gate == g.id
      requires state.calls[w.id].phase == S.Waiting || state.calls[w.id].phase == S.Granted
      modifies this, g, waiterOf.Values
      ensures Valid() && state == S.Cancelled(old(state), w.id, limits)
    {
      hide S.Inv, S.Others, S.Cancelled, Tied;
      S.CancelledInv(state, w.id, limits);
      S.CancelledOnlyEnds(state, w.id, limits);
      PassOnOrLeave(key, g, w, limits);
      forall d | d in releaserOf ensures ReleaserIs(d) {
        assert old(ReleaserIs(d));
      }
    }

    method PassOnOrLeave(key: S.Key, g: Gate, w: Waiter, limits: S.Limits)
      requires S.Inv(state) && Tied() && Mine(g) && w.id in waiterOf && waiterOf[w.id] == w && w.id < |state.calls|
      requires state.calls[w.id].key == key && state.calls[w.id].gate == g.id
      requires state.calls[w.id].phase == S.Waiting || state.calls[w.id].phase == S.Granted
      modifies this`gates, this`state, g, waiterOf.Values
      ensures Tied() && state == S.Cancelled(old(state), w.id, limits)
    {
      hide S.Inv, S.Others;
      assert WaiterIs(w.id) && (w.granted <==> state.calls[w.id].phase == S.Granted) by {
        PhaseServed(w.id);
      }
      if w.granted {
        FreeSlot(g, w.id);
        Pump(key, g, limits(key));
      } else {
        LeaveLine(g, w);
        Forget(key, g);
      }
    }

    lemma PhaseServed(c: nat)
      requires S.Inv(state) && c < |state.calls|
      ensures S.HasSlot(state.calls[c]) ==> state.calls[c].served
      ensures state.calls[c].phase == S.Waiting ==> !state.calls[c].served
    {
      assert S.Current(state, c);
    }

    lemma GateOfCall(c: nat)
      requires S.Inv(state) && Tied() && c < |state.calls| && state.calls[c].phase != S.Over
      ensures state.calls[c].key in gates && Mine(gates[state.calls[c].key])
      ensures gates[state.calls[c].key].id == state.calls[c].gate == state.gates[state.calls[c].key]
    {
      assert S.Current(state, c);
      assert GateIs(state.gates[state.calls[c].key]);
    }

    /** The release Acquire returned: the slot is given back once, at the gate
        the map has for the key. */
    method Release(r: Releaser, limits: S.Limits)
      requires Valid() && r.call in releaserOf && releaserOf[r.call] == r
      modifies this, r, gateOf, waiterOf.Values
      ensures Valid() && r.done && releaserOf == old(releaserOf)
      ensures state == S.Released(old(state), r.call, limits)
    {
      hide S.Inv, S.Others, S.Released, Tied;
      assert ReleaserIs(r.call);
      S.ReleasedInv(state, r.call, limits);
      if !r.done {
        S.ReleasedOnlyEnds(state, r.call, limits);
        r.done := true;
        HandOn(r.key, r.call, limits);
        forall d | d in releaserOf ensures ReleaserIs(d) {
          assert old(ReleaserIs(d));
        }
      }
    }

    method HandOn(key: S.Key, ghost c: nat, limits: S.Limits)
      requires S.Inv(state) && Tied() && c < |state.calls| && state.calls[c].key == key
      requires state.calls[c].phase == S.Holding
      modifies this`gates, this`state, gateOf, waiterOf.Values
      ensures Tied() && state == S.Released(old(state), c, limits)
    {
      hide S.Inv, S.Others;
      GateOfCall(c);
      var g := gates[key];
      FreeSlot(g, c);
      Pump(key, g, limits(key));
    }

    lemma KnownState()
      requires Tied()
      ensures S.Known(state) && gates.Keys == state.gates.Keys
    {
    }

    /** Changed limits reach every gate. order is the order the map happened
        to be walked in. */
    method Changed(limits: S.Limits) returns (ghost order: seq<S.Key>)
      requires Valid()
      modifies this, gateOf, waiterOf.Values
      ensures Valid() && state == S.Pumped(old(state), order, limits)
      ensures S.Walked(old(gates).Keys, order, {})
    {
      hide S.Inv, S.PumpedOne, S.Pumped, S.Known, S.Walked, Tied, Issued;
      assert S.Known(state) && gates.Keys == state.gates.Keys by { KnownState(); }
      assert S.Walked(gates.Keys, [], gates.Keys) by { S.WalkNone(gates.Keys); }
      order := [];
      var left := gates.Keys;
      assert state == S.Pumped(state, [], limits) by { S.PumpedNone(state, limits); }
      while left != {}
        invariant Valid() && gateOf == old(gateOf) && waiterOf == old(waiterOf) && releaserOf == old(releaserOf)
        invariant state == S.Pumped(old(state), order, limits)
        invariant S.Walked(old(gates).Keys, order, left)
        decreases |left|
      {
        var key :| key in left;
        S.PumpedOneMore(old(state), order, key, limits);
        S.WalkOneMore(old(gates).Keys, order, left, key);
        left := left - {key};
        order := order + [key];
        PumpKey(key, limits);
      }
    }

    lemma GateOfKey(key: S.Key)
      requires Tied() && key in gates
      ensures Mine(gates[key]) && key in state.gates && gates[key].id == state.gates[key] && gates[key] in gateOf
    {
      assert GateIs(state.gates[key]);
    }

    lemma PumpKeeps(key: S.Key, limit: int)
      requires S.Inv(state) && key in state.gates
      ensures S.Inv(S.Pump(state, key, state.gates[key], limit))
      ensures S.OnlyGrants(state, S.Pump(state, key, state.gates[key], limit))
    {
      S.PumpKeyInv(state, key, limit);
      S.PumpOnlyGrants(state, key, limit);
    }

    method PumpHere(key: S.Key, limit: int)
      requires Valid() && key in gates && key in state.gates
      modifies this`gates, this`state, gateOf, waiterOf.Values
      ensures Valid() && state == S.Pump(old(state), key, old(state).gates[key], limit)
    {
      hide S.Inv, S.Others, S.Pump, S.Known, S.Grants, S.InUse, S.Queue, Tied;
      GateOfKey(key);
      PumpKeeps(key, limit);
      Pump(key, gates[key], limit);
      forall d | d in releaserOf ensures ReleaserIs(d) {
        assert old(ReleaserIs(d));
      }
    }

    method PumpKey(key: S.Key, limits: S.Limits)
      requires Valid()
      modifies this`gates, this`state, gateOf, waiterOf.Values
      ensures Valid() && state == S.PumpedOne(old(state), key, limits)
    {
      hide S.Inv, S.Pump, Issued;
      if key in gates {
        PumpHere(key, limits(key));
      }
    }

    /** A waiting Acquire told of its slot. */
    method Ready(key: S.Key, w: Waiter) returns (r: Releaser)
      requires Valid() && w.id in waiterOf && waiterOf[w.id] == w && w.id < |state.calls|
      requires w.granted && state.calls[w.id].phase == S.Granted && state.calls[w.id].key == key
      modifies this`state, this`releaserOf
      ensures Valid() && w.id in releaserOf && releaserOf[w.id] == r && !r.done
      ensures state == S.Told(old(state), w.id) && state.calls[w.id].phase == S.Holding
    {
      hide S.Inv, S.Known, S.InUse, S.Queue, Tied;
      S.ToldInv(state, w.id);
      r := new Releaser(key, w.id);
      releaserOf := releaserOf[w.id := r];
      NoteTold(w.id);
      forall d | d in releaserOf ensures ReleaserIs(d) {
        assert d != w.id ==> old(ReleaserIs(d));
      }
    }

    ghost method NoteTold(c: nat)
      requires Tied()
      modifies this`state
      ensures Tied() && state == S.Told(old(state), c)
    {
      state := S.Told(state, c);
      forall i | 0 <= i < |gateOf| ensures GateIs(i) {
        assert old(GateIs(i));
      }
      forall d | d in waiterOf ensures WaiterIs(d) {
        assert old(WaiterIs(d));
      }
    }

    method InUse(key: S.Key) returns (inUse: int, waiting: nat)
      requires Valid()
      ensures inUse == S.Holders(state.calls, key) && waiting == |S.Queue(state, key)|
    {
      assert S.Balanced(state, key);
      if key in gates {
        assert GateIs(state.gates[key]);
        return gates[key].inUse, |gates[key].waiting|;
      }
      return 0, 0;
    }
  }
}
