/**
 The flow tables of the gateway (`Table` and `TcpTable`, firmware/src/nat.rs).
 Both are this table: four slots and thirty seconds for UDP, sixteen slots and
 two minutes for TCP. A flow's external port is its slot plus a constant.
 */
module NatTable {
  import opened Common

  datatype FlowId = FlowId(clientIp: seq<byte>, clientPort: u16, serverIp: seq<byte>, serverPort: u16)
  datatype Flow = Flow(id: FlowId, lastUsed: nat)

  type Slots = seq<Option<Flow>>

  predicate Holds(f: Option<Flow>, id: FlowId) {
    f.Some? && f.value.id == id
  }

  predicate Idle(f: Option<Flow>, now: nat, timeout: nat) {
    f.Some? && Since(now, f.value.lastUsed) >= timeout
  }

  ghost predicate Present(flows: Slots, id: FlowId) {
    exists k :: 0 <= k < |flows| && Holds(flows[k], id)
  }

  /** No two slots hold the same flow. */
  ghost predicate Distinct(flows: Slots) {
    forall i, j :: 0 <= i < j < |flows| && flows[i].Some? && flows[j].Some? ==> flows[i].value.id != flows[j].value.id
  }

  /** `k` is the slot a flow that is not in the table is given. */
  ghost predicate Victim(flows: Slots, now: nat, timeout: nat, k: nat) {
    && k < |flows|
    && if flows[k].None? then forall i :: 0 <= i < k ==> flows[i].Some?
       else
         && (forall i :: 0 <= i < |flows| ==> flows[i].Some?)
         && Idle(flows[k], now, timeout)
         && (forall i :: 0 <= i < |flows| && Idle(flows[i], now, timeout) ==>
               flows[k].value.lastUsed <= flows[i].value.lastUsed)
         && (forall i :: 0 <= i < k && Idle(flows[i], now, timeout) ==>
               flows[k].value.lastUsed < flows[i].value.lastUsed)
  }

  /** Every slot is taken by a flow that is not idle yet. */
  ghost predicate Busy(flows: Slots, now: nat, timeout: nat) {
    forall i :: 0 <= i < |flows| ==> flows[i].Some? && !Idle(flows[i], now, timeout)
  }

  /** What `slot_for` may do, and it may do only one thing. */
  ghost predicate Assigned(flows: Slots, after: Slots, id: FlowId, now: nat, timeout: nat, r: Option<nat>) {
    && |after| == |flows|
    && (r.None? <==> !Present(flows, id) && Busy(flows, now, timeout))
    && (r.None? ==> after == flows)
    && (r.Some? ==>
          && r.value < |flows|
          && after == flows[r.value := Some(Flow(id, now))]
          && (if Present(flows, id) then Holds(flows[r.value], id) else Victim(flows, now, timeout, r.value)))
  }

  /** Among distinct flows the outcome is fixed. */
  lemma AssignedIsUnique(flows: Slots, a: Slots, b: Slots, id: FlowId, now: nat, timeout: nat, r: Option<nat>,
      s: Option<nat>)
    requires Distinct(flows)
    requires Assigned(flows, a, id, now, timeout, r) && Assigned(flows, b, id, now, timeout, s)
    ensures r == s && a == b
  {
  }

  class FlowTable {
    var flows: Slots
    const timeout: nat

    constructor (slots: nat, timeout: nat)
      ensures flows == seq(slots, _ => None) && this.timeout == timeout
      ensures Distinct(flows)
    {
      this.timeout := timeout;
      flows := seq(slots, _ => None);
    }

    /** The slot of a flow, created or reclaimed if need be. */
    method SlotFor(id: FlowId, now: nat) returns (r: Option<nat>)
      requires Distinct(flows)
      modifies this
      ensures Distinct(flows)
      ensures Assigned(old(flows), flows, id, now, timeout, r)
    {
      var i := 0;
      while i < |flows|
        invariant 0 <= i <= |flows| && flows == old(flows)
        invariant forall k :: 0 <= k < i ==> !Holds(flows[k], id)
      {
        if Holds(flows[i], id) {
          flows := flows[i := Some(Flow(id, now))];
          return Some(i);
        }
        i := i + 1;
      }
      r := FindVictim(now);
      if r.Some? {
        flows := flows[r.value := Some(Flow(id, now))];
      }
    }

    /** The first free slot, or else the idle flow that was used longest ago. */
    method FindVictim(now: nat) returns (r: Option<nat>)
      ensures r.None? <==> Busy(flows, now, timeout)
      ensures r.Some? ==> Victim(flows, now, timeout, r.value)
    {
      for i := 0 to |flows|
        invariant forall k :: 0 <= k < i ==> flows[k].Some?
      {
        if flows[i].None? {
          return Some(i);
        }
      }
      r := None;
      for i := 0 to |flows|
        invariant r.Some? ==> r.value < i && Idle(flows[r.value], now, timeout)
        invariant r.None? ==> forall k :: 0 <= k < i ==> !Idle(flows[k], now, timeout)
        invariant r.Some? ==> forall k :: 0 <= k < i && Idle(flows[k], now, timeout) ==>
                                flows[r.value].value.lastUsed <= flows[k].value.lastUsed
        invariant r.Some? ==> forall k :: 0 <= k < r.value && Idle(flows[k], now, timeout) ==>
                                flows[r.value].value.lastUsed < flows[k].value.lastUsed
      {
        if Idle(flows[i], now, timeout) && (r.None? || flows[i].value.lastUsed < flows[r.value].value.lastUsed) {
          r := Some(i);
        }
      }
    }

    method Touch(slot: nat, now: nat)
      modifies this
      ensures flows == Touched(old(flows), slot, now)
    {
      if slot < |flows| && flows[slot].Some? {
        flows := flows[slot := Some(flows[slot].value.(lastUsed := now))];
      }
    }

    method Release(slot: nat)
      modifies this
      ensures flows == Released(old(flows), slot)
    {
      if slot < |flows| {
        flows := flows[slot := None];
      }
    }
  }

  function Touched(flows: Slots, slot: nat, now: nat): Slots {
    if slot < |flows| && flows[slot].Some? then flows[slot := Some(flows[slot].value.(lastUsed := now))] else flows
  }

  function Released(flows: Slots, slot: nat): Slots {
    if slot < |flows| then flows[slot := None] else flows
  }

  // ---------------------------------------------------------------------
  // Runs.

  datatype Op =
    | Use(id: FlowId, now: nat, slot: Option<nat>)
    | TouchOp(slot_: nat, now: nat)
    | ReleaseOp(slot_: nat)

  /** `after` is what `op` makes of `flows`; a `Use` records the slot it was given. */
  ghost predicate Steps(flows: Slots, op: Op, after: Slots, timeout: nat) {
    match op
    case Use(id, now, slot) => Assigned(flows, after, id, now, timeout, slot)
    case TouchOp(k, now) => after == Touched(flows, k, now)
    case ReleaseOp(k) => after == Released(flows, k)
  }

  /** A run: the table before, between and after its operations. */
  ghost predicate IsRun(states: seq<Slots>, ops: seq<Op>, timeout: nat) {
    && |states| == |ops| + 1
    && forall n :: 0 <= n < |ops| ==> Steps(states[n], ops[n], states[n + 1], timeout)
  }

  lemma StepKeepsDistinct(flows: Slots, op: Op, after: Slots, timeout: nat)
    requires Distinct(flows) && Steps(flows, op, after, timeout)
    ensures Distinct(after) && |after| == |flows|
  {
  }

  /** In every reachable table no two slots hold the same flow, so a slot names its flow. */
  lemma {:induction false} AlwaysDistinct(states: seq<Slots>, ops: seq<Op>, timeout: nat, n: nat)
    requires IsRun(states, ops, timeout) && n < |states|
    requires forall k :: 0 <= k < |states[0]| ==> states[0][k].None?
    ensures Distinct(states[n]) && |states[n]| == |states[0]|
  {
    if n > 0 {
      AlwaysDistinct(states, ops, timeout, n - 1);
      StepKeepsDistinct(states[n - 1], ops[n - 1], states[n], timeout);
    }
  }

  /** The operation neither releases the slot nor comes after its flow went idle. */
  ghost predicate Spares(flows: Slots, op: Op, k: nat, timeout: nat)
    requires k < |flows|
  {
    match op
    case Use(_, now, _) => !Idle(flows[k], now, timeout)
    case TouchOp(_, _) => true
    case ReleaseOp(slot) => slot != k
  }

  lemma StepKeepsSlot(flows: Slots, op: Op, after: Slots, timeout: nat, k: nat, id: FlowId)
    requires k < |flows| && Holds(flows[k], id) && Distinct(flows)
    requires Steps(flows, op, after, timeout) && Spares(flows, op, k, timeout)
    ensures k < |after| && Holds(after[k], id)
  {
  }

  /** A flow keeps its slot, and with it its external port, until it is released or has gone idle. */
  lemma {:induction false} FlowKeepsSlot(
    states: seq<Slots>, ops: seq<Op>, timeout: nat, a: nat, b: nat, k: nat, id: FlowId)
    requires IsRun(states, ops, timeout) && a <= b < |states|
    requires forall i :: 0 <= i < |states[0]| ==> states[0][i].None?
    requires k < |states[a]| && Holds(states[a][k], id)
    requires forall n :: a <= n < b && k < |states[n]| ==> Spares(states[n], ops[n], k, timeout)
    ensures k < |states[b]| && Holds(states[b][k], id)
    decreases b - a
  {
    if a < b {
      FlowKeepsSlot(states, ops, timeout, a, b - 1, k, id);
      AlwaysDistinct(states, ops, timeout, b - 1);
      StepKeepsSlot(states[b - 1], ops[b - 1], states[b], timeout, k, id);
    }
  }

  /** A flow that stays in the table is given the same slot every time it is used. */
  lemma SameFlowSameSlot(flows: Slots, after: Slots, id: FlowId, now: nat, timeout: nat, k: nat, r: Option<nat>)
    requires Distinct(flows) && k < |flows| && Holds(flows[k], id)
    requires Assigned(flows, after, id, now, timeout, r)
    ensures r == Some(k)
  {
    assert Present(flows, id);
  }
}
