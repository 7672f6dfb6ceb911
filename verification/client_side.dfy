/**
 One side (bids or asks) of a client's own orders: a linked list of order ids in arrival order, and a map whose
 entries hold iterators into the list. The list has real nodes, so that every stored iterator must be shown valid.
 */
module ClientSides {
  import opened Common

  // ---------- Specification: slots ----------

  /** A list node seen from outside: its id, and the order whose entry points at it. A stale node has no order. */
  datatype Slot = Slot(id: OrderId, order: Option<Order>)

  datatype Op = Add(order: Order) | Remove(id: Option<OrderId>)

  ghost predicate LiveAt(slots: seq<Slot>, id: OrderId, k: nat) {
    k < |slots| && slots[k].id == id && slots[k].order.Some?
  }

  ghost predicate HasKey(slots: seq<Slot>, id: OrderId) {
    exists k :: LiveAt(slots, id, k)
  }

  /** Entries describe their own id, and an id's entry points at its newest node. */
  ghost predicate WellFormed(slots: seq<Slot>) {
    && (forall k :: 0 <= k < |slots| && slots[k].order.Some? ==> slots[k].order.value.id == slots[k].id)
    && (forall i, j :: 0 <= i < j < |slots| && slots[i].id == slots[j].id ==> slots[i].order == None)
  }

  /** Overwriting the entry of id leaves every node of that id stale. */
  function Stale(slots: seq<Slot>, id: OrderId): seq<Slot> {
    seq(|slots|, k requires 0 <= k < |slots| => if slots[k].id == id then Slot(id, None) else slots[k])
  }

  ghost function Apply(slots: seq<Slot>, op: Op): seq<Slot> {
    match op
    case Add(o) => Stale(slots, o.id) + [Slot(o.id, Some(o))]
    case Remove(Some(id)) => if k: nat :| LiveAt(slots, id, k) then Without(slots, k) else slots
    case Remove(None) => if exists id :: HasKey(slots, id) then slots[..|slots| - 1] else slots
  }

  /** get_bids and get_asks: each listed id is looked up; a missing key throws, which is None here. */
  ghost function Query(slots: seq<Slot>): Option<seq<Order>> {
    if forall k :: 0 <= k < |slots| ==> HasKey(slots, slots[k].id) then
      Some(seq(|slots|, k requires 0 <= k < |slots| => Entry(slots, slots[k].id)))
    else None
  }

  ghost function Entry(slots: seq<Slot>, id: OrderId): Order
    requires HasKey(slots, id)
  {
    var k: nat :| LiveAt(slots, id, k);
    slots[k].order.value
  }

  lemma LiveUnique(slots: seq<Slot>, id: OrderId, i: nat, j: nat)
    requires WellFormed(slots) && LiveAt(slots, id, i) && LiveAt(slots, id, j)
    ensures i == j
  {
  }

  lemma ApplyKeepsWellFormed(slots: seq<Slot>, op: Op)
    requires WellFormed(slots)
    ensures WellFormed(Apply(slots, op))
  {
  }

  // ---------- With fresh ids: a plain sequence of orders ----------

  /** No node is stale: list and map agree. */
  ghost predicate Consistent(slots: seq<Slot>) {
    WellFormed(slots) && forall k :: 0 <= k < |slots| ==> slots[k].order.Some?
  }

  function Orders(slots: seq<Slot>): seq<Order>
    requires forall k :: 0 <= k < |slots| ==> slots[k].order.Some?
  {
    seq(|slots|, k requires 0 <= k < |slots| => slots[k].order.value)
  }

  ghost predicate Listed(orders: seq<Order>, id: OrderId) {
    exists k :: 0 <= k < |orders| && orders[k].id == id
  }

  /** The orders other than id's, in order. */
  function Except(orders: seq<Order>, id: OrderId): seq<Order> {
    if orders == [] then []
    else
      var front, last := Except(orders[..|orders| - 1], id), orders[|orders| - 1];
      if last.id == id then front else front + [last]
  }

  function ApplyPlain(orders: seq<Order>, op: Op): seq<Order> {
    match op
    case Add(o) => orders + [o]
    case Remove(Some(id)) => Except(orders, id)
    case Remove(None) => if orders == [] then [] else orders[..|orders| - 1]
  }

  /** An addition keeps list and map in agreement exactly when its id is fresh. */
  lemma AddConsistentIffFresh(slots: seq<Slot>, o: Order)
    requires Consistent(slots)
    ensures Consistent(Apply(slots, Add(o))) <==> !Listed(Orders(slots), o.id)
  {
    var after := Apply(slots, Add(o));
    var orders := Orders(slots);
    if k :| 0 <= k < |orders| && orders[k].id == o.id {
      assert after[k] == Slot(o.id, None);
    } else {
      forall k | 0 <= k < |slots|
        ensures after[k] == slots[k]
      {
        assert orders[k].id != o.id;
      }
    }
  }

  /** After adding a listed id again, removing it once leaves a stale node, and the query throws. */
  lemma RepeatedIdBreaksQuery(slots: seq<Slot>, o: Order)
    requires Consistent(slots) && Listed(Orders(slots), o.id)
    ensures Query(Apply(Apply(slots, Add(o)), Remove(Some(o.id)))) == None
  {
  }

  lemma {:induction false} ExceptUnlisted(orders: seq<Order>, id: OrderId)
    requires forall k :: 0 <= k < |orders| ==> orders[k].id != id
    ensures Except(orders, id) == orders
  {
    if orders != [] {
      ExceptUnlisted(orders[..|orders| - 1], id);
      assert orders == orders[..|orders| - 1] + [orders[|orders| - 1]];
    }
  }

  lemma {:induction false} ExceptOne(orders: seq<Order>, k: nat)
    requires k < |orders|
    requires forall i :: 0 <= i < |orders| && i != k ==> orders[i].id != orders[k].id
    ensures Except(orders, orders[k].id) == orders[..k] + orders[k + 1..]
    decreases |orders|
  {
    var n := |orders| - 1;
    var front := orders[..n];
    if k == n {
      ExceptUnlisted(front, orders[k].id);
    } else {
      ExceptOne(front, k);
      assert front[..k] == orders[..k];
      assert orders[k + 1..] == front[k + 1..] + [orders[n]];
      assert orders[..k] + (front[k + 1..] + [orders[n]]) == orders[..k] + front[k + 1..] + [orders[n]];
    }
  }

  lemma OrderIdsDistinct(slots: seq<Slot>)
    requires Consistent(slots)
    ensures var orders := Orders(slots);
            && (forall k :: 0 <= k < |slots| ==> orders[k].id == slots[k].id)
            && (forall i, j :: 0 <= i < |orders| && 0 <= j < |orders| && i != j ==> orders[i].id != orders[j].id)
  {
  }

  lemma OrdersWithout(slots: seq<Slot>, k: nat)
    requires Consistent(slots) && k < |slots| && Consistent(Without(slots, k))
    ensures Orders(Without(slots, k)) == Orders(slots)[..k] + Orders(slots)[k + 1..]
  {
  }

  lemma RemoveByIdIsExcept(slots: seq<Slot>, id: OrderId)
    requires Consistent(slots)
    ensures var after := Apply(slots, Remove(Some(id)));
            Consistent(after) && Orders(after) == Except(Orders(slots), id)
  {
    var orders := Orders(slots);
    var after := Apply(slots, Remove(Some(id)));
    OrderIdsDistinct(slots);
    ApplyKeepsWellFormed(slots, Remove(Some(id)));
    if HasKey(slots, id) {
      var k: nat :| LiveAt(slots, id, k) && after == Without(slots, k);
      OrdersWithout(slots, k);
      ExceptOne(orders, k);
    } else {
      forall k | 0 <= k < |orders|
        ensures orders[k].id != id
      {
        assert !LiveAt(slots, id, k);
      }
      ExceptUnlisted(orders, id);
    }
  }

  /** On consistent sides the operations are those of a plain sequence, and the query returns that sequence. */
  lemma StepRefinesPlain(slots: seq<Slot>, op: Op)
    requires Consistent(slots)
    requires op.Add? ==> !Listed(Orders(slots), op.order.id)
    ensures Consistent(Apply(slots, op))
    ensures Orders(Apply(slots, op)) == ApplyPlain(Orders(slots), op)
  {
    match op {
      case Add(o) =>
        AddConsistentIffFresh(slots, o);
        forall k | 0 <= k < |slots|
          ensures Stale(slots, o.id)[k] == slots[k]
        {
          assert Orders(slots)[k].id != o.id;
        }
        assert Stale(slots, o.id) == slots;
      case Remove(Some(id)) => RemoveByIdIsExcept(slots, id);
      case Remove(None) =>
        if slots != [] {
          assert LiveAt(slots, slots[0].id, 0);
          assert HasKey(slots, slots[0].id);
        }
    }
  }

  lemma QueryReturnsOrders(slots: seq<Slot>)
    requires Consistent(slots)
    ensures Query(slots) == Some(Orders(slots))
  {
    forall k | 0 <= k < |slots|
      ensures HasKey(slots, slots[k].id)
      ensures Entry(slots, slots[k].id) == Orders(slots)[k]
    {
      assert LiveAt(slots, slots[k].id, k);
      var i: nat :| LiveAt(slots, slots[k].id, i) && Entry(slots, slots[k].id) == slots[i].order.value;
      LiveUnique(slots, slots[k].id, i, k);
    }
    assert Query(slots).value == Orders(slots);
  }

  ghost function Run(slots: seq<Slot>, ops: seq<Op>): seq<Slot>
    decreases |ops|
  {
    if ops == [] then slots else Run(Apply(slots, ops[0]), ops[1..])
  }

  function RunPlain(orders: seq<Order>, ops: seq<Op>): seq<Order>
    decreases |ops|
  {
    if ops == [] then orders else RunPlain(ApplyPlain(orders, ops[0]), ops[1..])
  }

  /** Every addition names an id that is not listed at that moment. */
  ghost predicate FreshIds(orders: seq<Order>, ops: seq<Op>)
    decreases |ops|
  {
    ops == [] || ((ops[0].Add? ==> !Listed(orders, ops[0].order.id)) && FreshIds(ApplyPlain(orders, ops[0]), ops[1..]))
  }

  /** With fresh ids every run refines the plain sequence, and the query never throws. */
  lemma {:induction false} RunRefinesPlain(slots: seq<Slot>, ops: seq<Op>)
    requires Consistent(slots) && FreshIds(Orders(slots), ops)
    ensures Query(Run(slots, ops)) == Some(RunPlain(Orders(slots), ops))
    decreases |ops|
  {
    if ops == [] {
      QueryReturnsOrders(slots);
    } else {
      StepRefinesPlain(slots, ops[0]);
      RunRefinesPlain(Apply(slots, ops[0]), ops[1..]);
    }
  }
}
