/** The objects behind a client side: std::list nodes, the list, and the map of stored iterators. */
module OrderLists {
  import opened Common
  import opened ClientSides

  class Node {
    const id: OrderId
    var prev: Node?
    var next: Node?

    constructor (id: OrderId)
      ensures this.id == id && prev == null && next == null
    {
      this.id, prev, next := id, null, null;
    }
  }

  ghost predicate DistinctNodes(nodes: seq<Node>) {
    forall i, j :: 0 <= i < j < |nodes| ==> nodes[i] != nodes[j]
  }

  class OrderList {
    var head: Node?
    var tail: Node?
    ghost var nodes: seq<Node>

    ghost predicate Valid()
      reads this, nodes
    {
      && DistinctNodes(nodes)
      && head == (if nodes == [] then null else nodes[0])
      && tail == (if nodes == [] then null else nodes[|nodes| - 1])
      && (forall i {:trigger nodes[i].prev} :: 0 <= i < |nodes| ==>
            nodes[i].prev == if i == 0 then null else nodes[i - 1])
      && (forall i {:trigger nodes[i].next} :: 0 <= i < |nodes| ==>
            nodes[i].next == if i == |nodes| - 1 then null else nodes[i + 1])
    }

    constructor ()
      ensures Valid() && nodes == []
    {
      head, tail, nodes := null, null, [];
    }

    method PushBack(id: OrderId) returns (n: Node)
      requires Valid()
      modifies this, nodes
      ensures Valid() && fresh(n) && n.id == id && nodes == old(nodes) + [n]
    {
      n := new Node(id);
      n.prev := tail;
      if tail == null {
        head := n;
      } else {
        tail.next := n;
      }
      tail := n;
      nodes := nodes + [n];
    }

    /** erase(it): it must point at a node of this list; every other node stays where it is. */
    method Erase(n: Node, ghost k: nat)
      requires Valid() && k < |nodes| && nodes[k] == n
      modifies this, nodes
      ensures Valid() && nodes == old(nodes)[..k] + old(nodes)[k + 1..]
    {
      if n.prev == null {
        head := n.next;
      } else {
        n.prev.next := n.next;
      }
      if n.next == null {
        tail := n.prev;
      } else {
        n.next.prev := n.prev;
      }
      nodes := nodes[..k] + nodes[k + 1..];
    }
  }

  // ---------- Stored iterators ----------

  datatype OrderEntry = OrderEntry(order: Order, it: Node)

  type Entries = map<OrderId, OrderEntry>

  /** Every stored iterator points at a node of the list that holds its id, and at the newest such node. */
  ghost predicate IteratorsValid(byId: Entries, nodes: seq<Node>) {
    && DistinctNodes(nodes)
    && (forall id :: id in byId ==>
          byId[id].order.id == id && byId[id].it in nodes && byId[id].it.id == id)
    && (forall i, j :: 0 <= i < j < |nodes| && nodes[i].id == nodes[j].id && nodes[i].id in byId ==>
          byId[nodes[i].id].it != nodes[i])
  }

  ghost function SlotOf(byId: Entries, n: Node): Slot {
    Slot(n.id, if n.id in byId && byId[n.id].it == n then Some(byId[n.id].order) else None)
  }

  ghost function SlotsOf(byId: Entries, nodes: seq<Node>): seq<Slot> {
    seq(|nodes|, k requires 0 <= k < |nodes| => SlotOf(byId, nodes[k]))
  }

  lemma SlotsWellFormed(byId: Entries, nodes: seq<Node>)
    requires IteratorsValid(byId, nodes)
    ensures WellFormed(SlotsOf(byId, nodes))
  {
  }

  lemma KeysAreLive(byId: Entries, nodes: seq<Node>, id: OrderId)
    requires IteratorsValid(byId, nodes)
    ensures HasKey(SlotsOf(byId, nodes), id) <==> id in byId
    ensures forall k :: 0 <= k < |nodes| && id in byId && byId[id].it == nodes[k] ==>
              LiveAt(SlotsOf(byId, nodes), id, k)
    ensures id in byId ==> Entry(SlotsOf(byId, nodes), id) == byId[id].order
  {
    var slots := SlotsOf(byId, nodes);
    if id in byId {
      var k :| 0 <= k < |nodes| && nodes[k] == byId[id].it;
      assert LiveAt(slots, id, k);
      SlotsWellFormed(byId, nodes);
      var i: nat :| LiveAt(slots, id, i) && Entry(slots, id) == slots[i].order.value;
      LiveUnique(slots, id, i, k);
    }
  }

  lemma AddKeepsIterators(byId: Entries, nodes: seq<Node>, o: Order, n: Node)
    requires IteratorsValid(byId, nodes) && n !in nodes && n.id == o.id
    ensures IteratorsValid(byId[o.id := OrderEntry(o, n)], nodes + [n])
    ensures SlotsOf(byId[o.id := OrderEntry(o, n)], nodes + [n]) == Apply(SlotsOf(byId, nodes), Add(o))
  {
  }

  lemma UnlinkKeepsIterators(byId: Entries, nodes: seq<Node>, id: OrderId, k: nat)
    requires IteratorsValid(byId, nodes) && k < |nodes| && nodes[k].id == id
    requires id in byId ==> byId[id].it == nodes[k]
    ensures IteratorsValid(byId - {id}, nodes[..k] + nodes[k + 1..])
  {
  }

  lemma UnlinkSlots(byId: Entries, nodes: seq<Node>, id: OrderId, k: nat)
    requires IteratorsValid(byId, nodes) && k < |nodes| && nodes[k].id == id
    requires id in byId ==> byId[id].it == nodes[k]
    ensures SlotsOf(byId - {id}, nodes[..k] + nodes[k + 1..]) == Without(SlotsOf(byId, nodes), k)
  {
  }

  lemma RemoveByIdSlots(byId: Entries, nodes: seq<Node>, id: OrderId, k: nat)
    requires IteratorsValid(byId, nodes) && id in byId && k < |nodes| && nodes[k] == byId[id].it
    ensures IteratorsValid(byId - {id}, nodes[..k] + nodes[k + 1..])
    ensures SlotsOf(byId - {id}, nodes[..k] + nodes[k + 1..]) == Apply(SlotsOf(byId, nodes), Remove(Some(id)))
  {
    UnlinkKeepsIterators(byId, nodes, id, k);
    UnlinkSlots(byId, nodes, id, k);
    KeysAreLive(byId, nodes, id);
    SlotsWellFormed(byId, nodes);
    var slots := SlotsOf(byId, nodes);
    var i: nat :| LiveAt(slots, id, i) && Apply(slots, Remove(Some(id))) == Without(slots, i);
    LiveUnique(slots, id, i, k);
  }

  lemma RemoveLastSlots(byId: Entries, nodes: seq<Node>)
    requires IteratorsValid(byId, nodes) && byId != map[]
    ensures nodes != []
    ensures var last := |nodes| - 1;
            && IteratorsValid(byId - {nodes[last].id}, nodes[..last] + nodes[last + 1..])
            && SlotsOf(byId - {nodes[last].id}, nodes[..last] + nodes[last + 1..])
               == Apply(SlotsOf(byId, nodes), Remove(None))
  {
    var some :| some in byId;
    KeysAreLive(byId, nodes, some);
    var last := |nodes| - 1;
    UnlinkKeepsIterators(byId, nodes, nodes[last].id, last);
    UnlinkSlots(byId, nodes, nodes[last].id, last);
  }

  lemma NothingToRemove(byId: Entries, nodes: seq<Node>, id: Option<OrderId>)
    requires IteratorsValid(byId, nodes)
    requires if id.Some? then id.value !in byId else byId == map[]
    ensures Apply(SlotsOf(byId, nodes), Remove(id)) == SlotsOf(byId, nodes)
  {
  }

  // ---------- One side ----------

  class ClientSide {
    const list: OrderList
    var byId: Entries
    ghost var Repr: set<object>

    ghost predicate Valid()
      reads this, Repr
      ensures Valid() ==> this in Repr
    {
      && this in Repr && list in Repr
      && (forall k :: 0 <= k < |list.nodes| ==> list.nodes[k] in Repr)
      && list.Valid() && IteratorsValid(byId, list.nodes)
    }

    ghost function Slots(): seq<Slot>
      reads this, Repr
      requires Valid()
    {
      SlotsOf(byId, list.nodes)
    }

    constructor ()
      ensures Valid() && fresh(Repr) && Slots() == []
    {
      list := new OrderList();
      byId := map[];
      new;
      Repr := {this, list};
    }

    /** add_order_to_side */
    method AddOrder(o: Order)
      requires Valid()
      modifies Repr
      ensures Valid() && Slots() == Apply(old(Slots()), Add(o))
      ensures fresh(Repr - old(Repr))
    {
      ghost var before := list.nodes;
      var last := list.PushBack(o.id);
      AddKeepsIterators(byId, before, o, last);
      byId := byId[o.id := OrderEntry(o, last)];
      Repr := Repr + {last};
    }

    /** remove_order_from_side: erases through a stored iterator, or from the back of the list. */
    method RemoveOrder(id: Option<OrderId>)
      requires Valid()
      modifies Repr
      ensures Valid() && Slots() == Apply(old(Slots()), Remove(id))
      ensures Repr == old(Repr)
    {
      ghost var after := Apply(Slots(), Remove(id));
      if |byId| == 0 {
        NothingToRemove(byId, list.nodes, id);
        return;
      }
      if id.Some? {
        if id.value !in byId {
          NothingToRemove(byId, list.nodes, id);
          return;
        }
        ghost var k: nat :| k < |list.nodes| && list.nodes[k] == byId[id.value].it;
        RemoveByIdSlots(byId, list.nodes, id.value, k);
        Unlink(byId[id.value].it, k, after);
      } else {
        RemoveLastSlots(byId, list.nodes);
        Unlink(list.tail, |list.nodes| - 1, after);
      }
    }

    /** Erases a node from the list, and the entry of its id from the map. */
    method Unlink(n: Node, ghost k: nat, ghost after: seq<Slot>)
      requires Valid() && k < |list.nodes| && list.nodes[k] == n
      requires IteratorsValid(byId - {n.id}, list.nodes[..k] + list.nodes[k + 1..])
      requires SlotsOf(byId - {n.id}, list.nodes[..k] + list.nodes[k + 1..]) == after
      modifies Repr
      ensures Valid() && Slots() == after
      ensures Repr == old(Repr)
    {
      list.Erase(n, k);
      byId := byId - {n.id};
    }

    method Change(op: Op)
      requires Valid()
      modifies Repr
      ensures Valid() && Slots() == Apply(old(Slots()), op)
      ensures fresh(Repr - old(Repr))
    {
      match op {
        case Add(o) => AddOrder(o);
        case Remove(id) => RemoveOrder(id);
      }
    }

    /** get_bids and get_asks: None stands for the exception of a missing key. */
    method GetOrders() returns (orders: Option<seq<Order>>)
      requires Valid()
      ensures orders == Query(Slots())
    {
      var found: seq<Order> := [];
      var cursor := list.head;
      ghost var k := 0;
      ghost var slots := Slots();
      while cursor != null
        invariant 0 <= k <= |list.nodes|
        invariant cursor == if k == |list.nodes| then null else list.nodes[k]
        invariant |found| == k
        invariant forall i :: 0 <= i < k ==> HasKey(slots, slots[i].id) && found[i] == Entry(slots, slots[i].id)
        decreases |list.nodes| - k
      {
        KeysAreLive(byId, list.nodes, cursor.id);
        assert slots[k].id == cursor.id;
        if cursor.id !in byId {
          return None;
        }
        found := found + [byId[cursor.id].order];
        cursor := cursor.next;
        k := k + 1;
      }
      assert found == Query(slots).value;
      orders := Some(found);
    }
  }
}
