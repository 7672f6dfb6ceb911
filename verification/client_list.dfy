/** The client list object: a context per client, owning the client's two order lists, and the reverse session index. */
module ClientLists {
  import opened Common
  import ClientSides
  import opened OrderLists
  import opened Registries

  class ClientContext {
    var session: Option<SessionId>
    var subscribed: bool
    const bids: ClientSide
    const asks: ClientSide
    ghost var Repr: set<object>

    ghost predicate Valid()
      reads this, Repr
      ensures Valid() ==> this in Repr
    {
      && this in Repr && bids in Repr && asks in Repr
      && bids.Repr <= Repr && asks.Repr <= Repr
      && this !in bids.Repr && this !in asks.Repr && bids.Repr !! asks.Repr
      && bids.Valid() && asks.Valid()
    }

    ghost function View(): Client
      reads this, Repr
      requires Valid()
    {
      Client(session, subscribed, bids.Slots(), asks.Slots())
    }

    constructor ()
      ensures Valid() && fresh(Repr) && View() == NEWCOMER
    {
      session, subscribed := None, false;
      bids := new ClientSide();
      asks := new ClientSide();
      new;
      Repr := {this} + bids.Repr + asks.Repr;
    }

    method SetSession(session: Option<SessionId>)
      requires Valid()
      modifies this
      ensures Valid() && Repr == old(Repr) && View() == old(View()).(session := session)
    {
      this.session := session;
    }

    method SetSubscribed()
      requires Valid()
      modifies this
      ensures Valid() && Repr == old(Repr) && View() == old(View()).(subscribed := true)
    {
      subscribed := true;
    }

    method ChangeBids(op: ClientSides.Op)
      requires Valid()
      modifies Repr
      ensures Valid() && fresh(Repr - old(Repr))
      ensures View() == old(View()).(bids := ClientSides.Apply(old(View()).bids, op))
    {
      bids.Change(op);
      Repr := Repr + bids.Repr;
    }

    method ChangeAsks(op: ClientSides.Op)
      requires Valid()
      modifies Repr
      ensures Valid() && fresh(Repr - old(Repr))
      ensures View() == old(View()).(asks := ClientSides.Apply(old(View()).asks, op))
    {
      asks.Change(op);
      Repr := Repr + asks.Repr;
    }
  }

  /**
   The registry object: one context per known client, each owning its own two order lists, and the reverse index.
   Contexts of different clients share no object.
   */
  class ClientList {
    var contexts: map<ClientId, ClientContext>  // clients_
    var owner: map<SessionId, ClientId>         // session_to_client_
    ghost var clients: map<ClientId, Client>    // what the contexts hold
    ghost var Repr: set<object>

    ghost predicate Holds(id: ClientId)
      reads this`contexts, this`clients, this`Repr, Repr - {this}
    {
      && id in contexts && id in clients
      && contexts[id] in Repr && contexts[id].Repr <= Repr && this !in contexts[id].Repr
      && contexts[id].Valid() && contexts[id].View() == clients[id]
    }

    ghost predicate Apart(i: ClientId, j: ClientId)
      reads this`contexts, this`Repr, Repr - {this}
    {
      i in contexts && j in contexts && i != j && contexts[i] in Repr && contexts[j] in Repr ==>
        contexts[i].Repr !! contexts[j].Repr
    }

    ghost predicate Valid()
      reads this`contexts, this`clients, this`Repr, Repr - {this}
    {
      && this in Repr
      && contexts.Keys == clients.Keys
      && (forall id {:trigger Holds(id)} :: id in contexts ==> Holds(id))
      && (forall i, j {:trigger Apart(i, j)} :: Apart(i, j))
    }

    /** A context of which no object changed still holds what it held. */
    twostate lemma StillHolds(id: ClientId)
      requires old(Holds(id)) && id in contexts && contexts[id] == old(contexts[id])
      requires id in clients && clients[id] == old(clients[id])
      requires forall o :: o in old(contexts[id].Repr) ==> unchanged(o)
      requires old(Repr) <= Repr
      ensures Holds(id) && contexts[id].Repr == old(contexts[id].Repr)
    {
      var c := contexts[id];
      assert unchanged(c);
      assert c.Valid() == old(c.Valid());
      assert c.View() == old(c.View());
    }

    /** If only the context of id changed, by itself and with fresh objects, the rest is as it was. */
    twostate lemma OthersHold(id: ClientId)
      requires old(Valid()) && id in old(contexts) && contexts == old(contexts) && Holds(id)
      requires fresh(contexts[id].Repr - old(contexts[id].Repr)) && old(Repr) <= Repr && this in Repr
      requires clients == old(clients)[id := clients[id]]
      requires forall o :: o in old(Repr) && o !in old(contexts[id].Repr) && o != this ==> unchanged(o)
      ensures Valid()
    {
      assert old(Holds(id));
      forall other | other in contexts && other != id
        ensures Holds(other) && contexts[other].Repr == old(contexts[other].Repr)
      {
        assert old(Holds(other)) && old(Apart(id, other));
        StillHolds(other);
      }
      forall i, j
        ensures Apart(i, j)
      {
        assert old(Apart(i, j));
        if i in contexts && j in contexts {
          assert old(Holds(i)) && old(Holds(j));
        }
      }
    }

    /** If id is gone or has a new context, and no object changed, the rest is as it was. */
    twostate lemma RestHolds(id: ClientId)
      requires old(Valid()) && old(Repr) <= Repr && this in Repr && contexts.Keys == clients.Keys
      requires forall o :: o in old(Repr) && o != this ==> unchanged(o)
      requires id in contexts ==> Holds(id) && fresh(contexts[id].Repr)
      requires contexts - {id} == old(contexts) - {id} && clients - {id} == old(clients) - {id}
      ensures Valid()
    {
      forall other | other in contexts && other != id
        ensures other in old(contexts) && Holds(other) && contexts[other].Repr == old(contexts[other].Repr)
      {
        assert other in contexts - {id} && other in clients - {id};
        assert old(Holds(other));
        StillHolds(other);
      }
      forall i, j
        ensures Apart(i, j)
      {
        assert old(Apart(i, j));
        if i in contexts && j in contexts {
          assert i != id ==> old(Holds(i));
          assert j != id ==> old(Holds(j));
        }
      }
    }

    ghost function View(): Registry
      reads this
    {
      Registry(clients, owner)
    }

    constructor ()
      ensures Valid() && fresh(Repr) && View() == EMPTY
    {
      contexts, owner, clients := map[], map[], map[];
      new;
      Repr := {this};
    }

    method AddSession(id: ClientId, session: Option<SessionId>)
      requires Valid()
      modifies Repr
      ensures Valid() && fresh(Repr - old(Repr))
      ensures View() == Apply(old(View()), Operation.AddSession(id, session))
    {
      EraseOwner(id);
      if id !in contexts {
        AddContext(id);
      }
      SetSession(id, session);
      if session.Some? {
        owner := owner[session.value := id];
      }
    }

    /** Takes the current session of id, if any, out of the reverse index. */
    method EraseOwner(id: ClientId)
      requires Valid()
      modifies this`owner
      ensures Valid() && owner == OwnerWithout(old(View()), id)
    {
      if id in contexts {
        assert Holds(id);
        if contexts[id].session.Some? {
          owner := owner - {contexts[id].session.value};
        }
      }
    }

    /** What clients_[id] does on an unknown id. */
    method AddContext(id: ClientId)
      requires Valid() && id !in contexts
      modifies this
      ensures Valid() && fresh(Repr - old(Repr)) && old(Repr) <= Repr
      ensures clients == old(clients)[id := NEWCOMER] && owner == old(owner)
    {
      var context := new ClientContext();
      contexts := contexts[id := context];
      clients := clients[id := NEWCOMER];
      Repr := Repr + context.Repr;
      RestHolds(id);
    }

    method SetSession(id: ClientId, session: Option<SessionId>)
      requires Valid() && id in contexts
      modifies Repr
      ensures Valid() && Repr == old(Repr)
      ensures clients == old(clients)[id := old(clients)[id].(session := session)] && owner == old(owner)
    {
      assert Holds(id);
      contexts[id].SetSession(session);
      clients := clients[id := clients[id].(session := session)];
      OthersHold(id);
    }

    method RemoveSession(id: ClientId)
      requires Valid()
      modifies this
      ensures Valid() && Repr == old(Repr)
      ensures View() == Apply(old(View()), Operation.RemoveSession(id))
    {
      EraseOwner(id);
      Forget(id);
    }

    method Forget(id: ClientId)
      requires Valid()
      modifies this`contexts, this`clients
      ensures Valid() && clients == old(clients) - {id}
    {
      contexts := contexts - {id};
      clients := clients - {id};
      RestHolds(id);
    }

    /** get_session: None stands for the exception on an unknown id, Some(None) for a null session. */
    method GetSession(id: ClientId) returns (found: Option<Option<SessionId>>)
      requires Valid()
      ensures found == if id in View().clients then Some(SessionOf(View(), id)) else None
    {
      if id !in contexts {
        return None;
      }
      assert Holds(id);
      return Some(contexts[id].session);
    }

    /** False stands for the exception on an unknown id, here and below. */
    method Subscribe(id: ClientId) returns (known: bool)
      requires Valid()
      modifies Repr
      ensures Valid() && Repr == old(Repr)
      ensures View() == Apply(old(View()), Operation.Subscribe(id)) && known == (id in old(View()).clients)
    {
      if id !in contexts {
        return false;
      }
      SetSubscribed(id);
      return true;
    }

    method SetSubscribed(id: ClientId)
      requires Valid() && id in contexts
      modifies Repr
      ensures Valid() && Repr == old(Repr)
      ensures clients == old(clients)[id := old(clients)[id].(subscribed := true)] && owner == old(owner)
    {
      assert Holds(id);
      contexts[id].SetSubscribed();
      clients := clients[id := clients[id].(subscribed := true)];
      OthersHold(id);
    }

    /** The flag is cleared on a copy of the context. */
    method Unsubscribe(id: ClientId) returns (known: bool)
      requires Valid()
      ensures Valid() && Repr == old(Repr)
      ensures View() == Apply(old(View()), Operation.Unsubscribe(id)) && known == (id in View().clients)
    {
      if id !in contexts {
        return false;
      }
      var copy := contexts[id].subscribed;
      copy := false;
      return true;
    }

    /** add_bid and remove_bid, by the operation. */
    method ChangeBids(id: ClientId, op: ClientSides.Op) returns (known: bool)
      requires Valid()
      modifies Repr
      ensures Valid() && fresh(Repr - old(Repr))
      ensures View() == Apply(old(View()), Operation.ChangeBids(id, op)) && known == (id in old(View()).clients)
    {
      if id !in contexts {
        return false;
      }
      ChangeBidsOf(id, op);
      return true;
    }

    method ChangeBidsOf(id: ClientId, op: ClientSides.Op)
      requires Valid() && id in contexts
      modifies Repr
      ensures Valid() && fresh(Repr - old(Repr)) && owner == old(owner)
      ensures clients == old(clients)[id := old(clients)[id].(bids := ClientSides.Apply(old(clients)[id].bids, op))]
    {
      assert Holds(id);
      contexts[id].ChangeBids(op);
      Repr := Repr + contexts[id].Repr;
      clients := clients[id := contexts[id].View()];
      OthersHold(id);
    }

    /** add_ask and remove_ask. */
    method ChangeAsks(id: ClientId, op: ClientSides.Op) returns (known: bool)
      requires Valid()
      modifies Repr
      ensures Valid() && fresh(Repr - old(Repr))
      ensures View() == Apply(old(View()), Operation.ChangeAsks(id, op)) && known == (id in old(View()).clients)
    {
      if id !in contexts {
        return false;
      }
      ChangeAsksOf(id, op);
      return true;
    }

    method ChangeAsksOf(id: ClientId, op: ClientSides.Op)
      requires Valid() && id in contexts
      modifies Repr
      ensures Valid() && fresh(Repr - old(Repr)) && owner == old(owner)
      ensures clients == old(clients)[id := old(clients)[id].(asks := ClientSides.Apply(old(clients)[id].asks, op))]
    {
      assert Holds(id);
      contexts[id].ChangeAsks(op);
      Repr := Repr + contexts[id].Repr;
      clients := clients[id := contexts[id].View()];
      OthersHold(id);
    }

    /** get_bids: the outer None is the exception on an unknown id, the inner one that of a missing key. */
    method GetBids(id: ClientId) returns (orders: Option<Option<seq<Order>>>)
      requires Valid()
      ensures orders == if id in View().clients then Some(ClientSides.Query(View().clients[id].bids)) else None
    {
      if id !in contexts {
        return None;
      }
      assert Holds(id);
      var found := contexts[id].bids.GetOrders();
      return Some(found);
    }

    method GetAsks(id: ClientId) returns (orders: Option<Option<seq<Order>>>)
      requires Valid()
      ensures orders == if id in View().clients then Some(ClientSides.Query(View().clients[id].asks)) else None
    {
      if id !in contexts {
        return None;
      }
      assert Holds(id);
      var found := contexts[id].asks.GetOrders();
      return Some(found);
    }

    method Perform(op: Operation)
      requires Valid()
      modifies Repr
      ensures Valid() && fresh(Repr - old(Repr)) && View() == Apply(old(View()), op)
    {
      match op {
        case AddSession(id, session) => AddSession(id, session);
        case RemoveSession(id) => RemoveSession(id);
        case Subscribe(id) => var known := Subscribe(id);
        case Unsubscribe(id) => var known := Unsubscribe(id);
        case ChangeBids(id, bidOp) => var known := ChangeBids(id, bidOp);
        case ChangeAsks(id, askOp) => var known := ChangeAsks(id, askOp);
      }
    }

    /** A whole run on the object. */
    method PerformAll(ops: seq<Operation>)
      requires Valid()
      modifies Repr
      ensures Valid() && fresh(Repr - old(Repr)) && View() == ApplyAll(old(View()), ops)
    {
      for i := 0 to |ops|
        invariant Valid() && fresh(Repr - old(Repr)) && View() == ApplyAll(old(View()), ops[..i])
      {
        ApplyAllSnoc(old(View()), ops[..i], ops[i]);
        assert ops[..i + 1] == ops[..i] + [ops[i]];
        Perform(ops[i]);
      }
      assert ops[..|ops|] == ops;
    }

    /** Each subscribed client once, in no particular order. */
    method GetSubscribedClients() returns (ids: seq<ClientId>)
      requires Valid()
      ensures forall id :: id in ids <==> id in View().clients && View().clients[id].subscribed
      ensures forall i, j :: 0 <= i < j < |ids| ==> ids[i] != ids[j]
    {
      ids := [];
      var left := contexts.Keys;
      while left != {}
        invariant left <= contexts.Keys
        invariant forall id :: id in ids <==> id in clients && id !in left && clients[id].subscribed
        invariant forall i, j :: 0 <= i < j < |ids| ==> ids[i] != ids[j]
        decreases |left|
      {
        var id :| id in left;
        assert Holds(id);
        left := left - {id};
        if contexts[id].subscribed {
          ids := ids + [id];
        }
      }
    }

    /** The client this session is current for. */
    method FindClientIdBySession(session: SessionId) returns (id: Option<ClientId>)
      requires Valid()
      ensures Sound(View()) && id.Some? ==> SessionOf(View(), id.value) == Some(session)
      ensures id == if session in View().owner then Some(View().owner[session]) else None
    {
      if session !in owner {
        return None;
      }
      return Some(owner[session]);
    }
  }
}
