/** The client registry as a value: the clients, and the reverse index from sessions to client ids. */
module Registries {
  import opened Common
  import ClientSides

  type ClientId = Word

  /** The identity of a session object; a null session pointer is None. */
  type SessionId = nat

  datatype Client = Client(
    session: Option<SessionId>,
    subscribed: bool,
    bids: seq<ClientSides.Slot>,
    asks: seq<ClientSides.Slot>)

  datatype Registry = Registry(
    clients: map<ClientId, Client>,       // clients_
    owner: map<SessionId, ClientId>)      // session_to_client_

  const EMPTY := Registry(map[], map[])

  const NEWCOMER := Client(None, false, [], [])

  datatype Operation =
    | AddSession(id: ClientId, session: Option<SessionId>)
    | RemoveSession(id: ClientId)
    | Subscribe(id: ClientId)
    | Unsubscribe(id: ClientId)
    | ChangeBids(id: ClientId, bidOp: ClientSides.Op)
    | ChangeAsks(id: ClientId, askOp: ClientSides.Op)

  function SessionOf(r: Registry, id: ClientId): Option<SessionId> {
    if id in r.clients then r.clients[id].session else None
  }

  /** The reverse index once the current session of id is taken out of it. */
  function OwnerWithout(r: Registry, id: ClientId): map<SessionId, ClientId> {
    var current := SessionOf(r, id);
    if current.Some? then r.owner - {current.value} else r.owner
  }

  ghost function Apply(r: Registry, e: Operation): Registry {
    match e
    case AddSession(id, session) =>
      var client := (if id in r.clients then r.clients[id] else NEWCOMER).(session := session);
      var owner := OwnerWithout(r, id);
      Registry(r.clients[id := client], if session.Some? then owner[session.value := id] else owner)
    case RemoveSession(id) => Registry(r.clients - {id}, OwnerWithout(r, id))
    // The rest throw on an unknown id and change nothing then.
    case Subscribe(id) =>
      if id in r.clients then r.(clients := r.clients[id := r.clients[id].(subscribed := true)]) else r
    case Unsubscribe(id) => r  // the flag is cleared on a copy
    case ChangeBids(id, op) =>
      if id in r.clients then
        r.(clients := r.clients[id := r.clients[id].(bids := ClientSides.Apply(r.clients[id].bids, op))])
      else r
    case ChangeAsks(id, op) =>
      if id in r.clients then
        r.(clients := r.clients[id := r.clients[id].(asks := ClientSides.Apply(r.clients[id].asks, op))])
      else r
  }

  /** unsubscribe as documented: the flag of a known client is cleared. */
  function DocumentedUnsubscribe(r: Registry, id: ClientId): Registry {
    if id in r.clients then r.(clients := r.clients[id := r.clients[id].(subscribed := false)]) else r
  }

  /** The code does what is documented exactly for clients that are unknown or not subscribed anyway. */
  lemma UnsubscribeAsDocumentedIff(r: Registry, id: ClientId)
    ensures Apply(r, Unsubscribe(id)) == DocumentedUnsubscribe(r, id) <==>
              (id in r.clients ==> !r.clients[id].subscribed)
  {
    if id in r.clients {
      assert DocumentedUnsubscribe(r, id).clients[id].subscribed == false;
      if !r.clients[id].subscribed {
        assert DocumentedUnsubscribe(r, id).clients == r.clients;
      }
    }
  }

  /** Whatever happens to other clients or orders, a client that once subscribed stays so until it is removed. */
  lemma {:induction false} SubscriptionIsForever(r: Registry, ops: seq<Operation>, id: ClientId)
    requires id in r.clients && r.clients[id].subscribed && RemoveSession(id) !in ops
    ensures id in ApplyAll(r, ops).clients && ApplyAll(r, ops).clients[id].subscribed
    decreases |ops|
  {
    if ops != [] {
      assert ops[0] != RemoveSession(id);
      SubscriptionIsForever(Apply(r, ops[0]), ops[1..], id);
    }
  }

  // ---------- One client over a run ----------

  /** The operations that change the bids of client id, in order. */
  function BidOps(ops: seq<Operation>, id: ClientId): seq<ClientSides.Op> {
    if ops == [] then []
    else (if ops[0].ChangeBids? && ops[0].id == id then [ops[0].bidOp] else []) + BidOps(ops[1..], id)
  }

  function AskOps(ops: seq<Operation>, id: ClientId): seq<ClientSides.Op> {
    if ops == [] then []
    else (if ops[0].ChangeAsks? && ops[0].id == id then [ops[0].askOp] else []) + AskOps(ops[1..], id)
  }

  /** The session the last AddSession of client id gave it. */
  function LastSession(session: Option<SessionId>, ops: seq<Operation>, id: ClientId): Option<SessionId>
    decreases |ops|
  {
    if ops == [] then session
    else LastSession(if ops[0].AddSession? && ops[0].id == id then ops[0].session else session, ops[1..], id)
  }

  lemma OneOperation(r: Registry, op: Operation, id: ClientId)
    requires id in r.clients && op != RemoveSession(id)
    ensures id in Apply(r, op).clients
    ensures var c, d := r.clients[id], Apply(r, op).clients[id];
            && d.bids == ClientSides.Run(c.bids, BidOps([op], id))
            && d.asks == ClientSides.Run(c.asks, AskOps([op], id))
            && d.session == LastSession(c.session, [op], id)
            && d.subscribed == (c.subscribed || op == Subscribe(id))
  {
    assert [op][1..] == [];
    if op.ChangeBids? && op.id == id {
      assert BidOps([op], id) == [op.bidOp] && [op.bidOp][1..] == [];
    }
    if op.ChangeAsks? && op.id == id {
      assert AskOps([op], id) == [op.askOp] && [op.askOp][1..] == [];
    }
  }

  /**
   Over any run that does not remove it, a client's bids are what its own bid operations make of them, its asks what
   its own ask operations do; nothing done to other clients, sessions or flags reaches them. Its session is the last it
   was given, and it is subscribed if it was or ever subscribed.
   */
  lemma {:induction false} ClientFollowsItsOperations(r: Registry, ops: seq<Operation>, id: ClientId)
    requires id in r.clients && RemoveSession(id) !in ops
    ensures var t := ApplyAll(r, ops);
            && id in t.clients
            && t.clients[id].bids == ClientSides.Run(r.clients[id].bids, BidOps(ops, id))
            && t.clients[id].asks == ClientSides.Run(r.clients[id].asks, AskOps(ops, id))
            && t.clients[id].session == LastSession(r.clients[id].session, ops, id)
            && t.clients[id].subscribed == (r.clients[id].subscribed || Subscribe(id) in ops)
    decreases |ops|
  {
    if ops != [] {
      var op, rest, next := ops[0], ops[1..], Apply(r, ops[0]);
      assert [op][1..] == [] && ops == [op] + rest;
      OneOperation(r, op, id);
      ClientFollowsItsOperations(next, rest, id);
      OneThenRest(r.clients[id].bids, BidOps([op], id), BidOps(rest, id));
      OneThenRest(r.clients[id].asks, AskOps([op], id), AskOps(rest, id));
    }
  }

  lemma OneThenRest(slots: seq<ClientSides.Slot>, first: seq<ClientSides.Op>, rest: seq<ClientSides.Op>)
    requires |first| <= 1
    ensures ClientSides.Run(slots, first + rest) == ClientSides.Run(ClientSides.Run(slots, first), rest)
  {
    if first == [] {
      assert first + rest == rest;
    } else {
      assert first[1..] == [] && (first + rest)[1..] == rest;
    }
  }

  /** A client comes into being with its first session, unsubscribed and without orders, and goes with its removal. */
  lemma {:induction false} UnknownUntilAdded(r: Registry, ops: seq<Operation>, id: ClientId)
    ensures forall session :: id !in r.clients ==>
              var t := Apply(r, AddSession(id, session));
              id in t.clients && t.clients[id] == Client(session, false, [], [])
    ensures id !in Apply(r, RemoveSession(id)).clients
    ensures id !in r.clients && (forall session :: AddSession(id, session) !in ops) ==>
              id !in ApplyAll(r, ops).clients
    decreases |ops|
  {
    if ops != [] {
      UnknownUntilAdded(Apply(r, ops[0]), ops[1..], id);
      if id !in r.clients && forall session :: AddSession(id, session) !in ops {
        assert ops[0] in ops && ops[0] != AddSession(id, None);
        assert ops[0].AddSession? ==> ops[0] == AddSession(ops[0].id, ops[0].session);
      }
    }
  }

  /** With fresh ids the queries return the plain sequences of a client's bid and ask operations since it registered. */
  lemma QueriesReturnOwnOrders(r: Registry, session: Option<SessionId>, ops: seq<Operation>, id: ClientId)
    requires id !in r.clients && RemoveSession(id) !in ops
    ensures var t := ApplyAll(Apply(r, AddSession(id, session)), ops);
            && id in t.clients
            && (ClientSides.FreshIds([], BidOps(ops, id)) ==>
                  ClientSides.Query(t.clients[id].bids) == Some(ClientSides.RunPlain([], BidOps(ops, id))))
            && (ClientSides.FreshIds([], AskOps(ops, id)) ==>
                  ClientSides.Query(t.clients[id].asks) == Some(ClientSides.RunPlain([], AskOps(ops, id))))
  {
    ClientFollowsItsOperations(Apply(r, AddSession(id, session)), ops, id);
    assert ClientSides.Orders([]) == [];
    if ClientSides.FreshIds([], BidOps(ops, id)) {
      ClientSides.RunRefinesPlain([], BidOps(ops, id));
    }
    if ClientSides.FreshIds([], AskOps(ops, id)) {
      ClientSides.RunRefinesPlain([], AskOps(ops, id));
    }
  }

  lemma {:induction false} ApplyAllSnoc(r: Registry, ops: seq<Operation>, op: Operation)
    ensures ApplyAll(r, ops + [op]) == Apply(ApplyAll(r, ops), op)
    decreases |ops|
  {
    if ops == [] {
      assert [op][1..] == [] && ops + [op] == [op];
    } else {
      ApplyAllSnoc(Apply(r, ops[0]), ops[1..], op);
      assert (ops + [op])[1..] == ops[1..] + [op];
    }
  }

  // ---------- The reverse index ----------

  /** Every reverse entry s -> c is right: c is registered and its current session is s. */
  ghost predicate Sound(r: Registry) {
    forall s :: s in r.owner ==> SessionOf(r, r.owner[s]) == Some(s)
  }

  /** Every current session is found by the reverse index. */
  ghost predicate Complete(r: Registry) {
    forall id :: id in r.clients && r.clients[id].session.Some? ==>
      r.clients[id].session.value in r.owner && r.owner[r.clients[id].session.value] == id
  }

  ghost function ApplyAll(r: Registry, ops: seq<Operation>): Registry
    decreases |ops|
  {
    if ops == [] then r else ApplyAll(Apply(r, ops[0]), ops[1..])
  }

  lemma ApplyKeepsSound(r: Registry, e: Operation)
    requires Sound(r)
    ensures Sound(Apply(r, e))
  {
  }

  /** Null sessions, repeated HELLOs and one session under several ids included, the reverse index is always right. */
  lemma {:induction false} RegistrySound(r: Registry, ops: seq<Operation>)
    requires Sound(r)
    ensures var t := ApplyAll(r, ops);
            && (forall s :: s in t.owner ==> SessionOf(t, t.owner[s]) == Some(s))
            && (forall s1, s2 :: s1 in t.owner && s2 in t.owner && t.owner[s1] == t.owner[s2] ==> s1 == s2)
    decreases |ops|
  {
    if ops != [] {
      ApplyKeepsSound(r, ops[0]);
      RegistrySound(Apply(r, ops[0]), ops[1..]);
    }
  }

  /** The session is already bound to a client other than id. */
  ghost predicate BoundElsewhere(r: Registry, id: ClientId, session: Option<SessionId>) {
    session.Some? && exists other :: other in r.clients && other != id && r.clients[other].session == session
  }

  /** The two maps stay mutually inverse exactly when no session is bound under a second id. */
  lemma CompleteIffNotBoundTwice(r: Registry, e: Operation)
    requires Sound(r) && Complete(r)
    ensures Complete(Apply(r, e)) <==> !(e.AddSession? && BoundElsewhere(r, e.id, e.session))
  {
    var t := Apply(r, e);
    match e {
      case AddSession(id, session) =>
        if BoundElsewhere(r, id, session) {
          var other :| other in r.clients && other != id && r.clients[other].session == session;
          assert t.clients[other].session == session && t.owner[session.value] == id;
        } else {
          forall c | c in t.clients && t.clients[c].session.Some? && c != id
            ensures t.clients[c].session.value in t.owner && t.owner[t.clients[c].session.value] == c
          {
            assert r.owner[r.clients[c].session.value] == c;
          }
        }
      case RemoveSession(id) =>
        forall c | c in t.clients && t.clients[c].session.Some?
          ensures t.clients[c].session.value in t.owner && t.owner[t.clients[c].session.value] == c
        {
          assert r.owner[r.clients[c].session.value] == c;
        }
      case _ =>
        forall c | c in t.clients && t.clients[c].session.Some?
          ensures t.clients[c].session.value in t.owner && t.owner[t.clients[c].session.value] == c
        {
          assert t.clients[c].session == r.clients[c].session;
        }
    }
  }

  /** No operation of the run binds a session under a second id. */
  ghost predicate SingleBindings(r: Registry, ops: seq<Operation>)
    decreases |ops|
  {
    ops == [] || (!(ops[0].AddSession? && BoundElsewhere(r, ops[0].id, ops[0].session))
                     && SingleBindings(Apply(r, ops[0]), ops[1..]))
  }

  lemma MutuallyInverse(r: Registry)
    requires Sound(r) && Complete(r)
    ensures forall id, s :: SessionOf(r, id) == Some(s) <==> s in r.owner && r.owner[s] == id
  {
  }

  /** While no session is bound under a second id, the two maps are mutually inverse on non-null sessions. */
  lemma {:induction false} SingleBindingsMutuallyInverse(r: Registry, ops: seq<Operation>)
    requires Sound(r) && Complete(r) && SingleBindings(r, ops)
    ensures var t := ApplyAll(r, ops);
            forall id, s :: SessionOf(t, id) == Some(s) <==> s in t.owner && t.owner[s] == id
    decreases |ops|
  {
    if ops == [] {
      MutuallyInverse(r);
    } else {
      assert ApplyAll(r, ops) == ApplyAll(Apply(r, ops[0]), ops[1..]);
      ApplyKeepsSound(r, ops[0]);
      CompleteIffNotBoundTwice(r, ops[0]);
      SingleBindingsMutuallyInverse(Apply(r, ops[0]), ops[1..]);
    }
  }
}
