/**
 The broadcast pipeline end to end: commands are queued, popped by the broadcaster thread, posted to the single io
 thread, handled there by dispatching to session strands, and accepted by the sessions, which meanwhile run their own
 protocol. Snapshot commands only.
 */
module Broadcasting {
  import opened Common
  import opened CommandQueues
  import S = SessionProtocol

  /** A snapshot on its way to a session, tagged with the number of the command that caused it. */
  datatype Message = Message(number: nat, payload: Bytes)

  /** The session accepted the snapshot of a command, as its message number `at`. */
  datatype Receipt = Receipt(number: nat, at: nat)

  datatype Posted = Posted(number: nat, command: Command)

  /** A registered client: its flag, its session, the sends waiting on the session's strand, and what it accepted. */
  datatype Client = Client(subscribed: bool, session: S.State, strand: seq<Message>, receipts: seq<Receipt>)

  datatype Pipeline = Pipeline(
    q: State,
    posted: seq<Posted>,         // handlers waiting on the io thread
    handled: seq<nat>,
    clients: map<Word, Client>,
    halted: bool)                // an exception left the io thread

  datatype Stage =
    | Enqueue(payload: Bytes, client: Option<Word>)
    | PopAndPost
    | Handle
    | Deliver(id: Word)
    | SessionStep(id: Word, own: S.Event)
    | Join(id: Word, session: S.State)
    | Leave(id: Word)

  ghost predicate CanDo(p: Pipeline, e: Stage) {
    match e
    case Enqueue(_, _) => true
    case PopAndPost => Enabled(p.q, Pop)
    case Handle => !p.halted && p.posted != []
    case Deliver(id) => !p.halted && id in p.clients && p.clients[id].strand != []
    case SessionStep(id, own) => !p.halted && id in p.clients && S.Enabled(p.clients[id].session, own)
    case Join(_, session) => !p.halted && S.Inv(session)
    case Leave(_) => !p.halted
  }

  function Dispatch(c: Client, m: Message): Client {
    c.(strand := c.strand + [m])
  }

  /** handle_send_snapshot_all and broadcast_to_subscribed. */
  function SendToSubscribed(clients: map<Word, Client>, m: Message): map<Word, Client> {
    map id | id in clients :: if clients[id].subscribed then Dispatch(clients[id], m) else clients[id]
  }

  /** The oldest waiting SendMsg runs on the session, which may refuse the message. */
  function Delivered(c: Client): Client
    requires c.strand != []
  {
    var session := S.AfterSend(c.session, c.strand[0].payload);
    var got :=
      if session.accepted == c.session.accepted then []
      else [Receipt(c.strand[0].number, |c.session.accepted|)];
    Client(c.subscribed, session, c.strand[1..], c.receipts + got)
  }

  ghost function Do(p: Pipeline, e: Stage): Pipeline
    requires CanDo(p, e)
  {
    match e
    case Enqueue(payload, client) => p.(q := AfterPush(p.q, Command(SendSnapshot, client, payload)))
    case PopAndPost => p.(q := AfterPop(p.q), posted := p.posted + [Posted(p.q.numbers[0], p.q.queue[0])])
    case Handle =>
      var x := p.posted[0];
      var m := Message(x.number, x.command.payload);
      var rest := p.(posted := p.posted[1..], handled := p.handled + [x.number]);
      if x.command.client == None then rest.(clients := SendToSubscribed(p.clients, m))
      else
        var id := x.command.client.value;
        if id in p.clients then rest.(clients := p.clients[id := Dispatch(p.clients[id], m)])
        else rest.(halted := true)  // get_session throws
    case Deliver(id) => p.(clients := p.clients[id := Delivered(p.clients[id])])
    case SessionStep(id, own) =>
      p.(clients := p.clients[id := p.clients[id].(session := S.Step(p.clients[id].session, own))])
    case Join(id, session) => p.(clients := p.clients[id := Client(true, session, [], [])])
    case Leave(id) => p.(clients := p.clients - {id})
  }

  ghost predicate Possible(p: Pipeline, stages: seq<Stage>)
    decreases |stages|
  {
    stages == [] || (CanDo(p, stages[0]) && Possible(Do(p, stages[0]), stages[1..]))
  }

  ghost function After(p: Pipeline, stages: seq<Stage>): Pipeline
    requires Possible(p, stages)
    decreases |stages|
  {
    if stages == [] then p else After(Do(p, stages[0]), stages[1..])
  }

  // ---------- What was asked for, and what each stage does ----------

  /** The snapshot commands requested in the course of the stages, in order. */
  function Requested(stages: seq<Stage>): seq<Command> {
    if stages == [] then []
    else
      (if stages[0].Enqueue? then [Command(SendSnapshot, stages[0].client, stages[0].payload)] else [])
      + Requested(stages[1..])
  }

  /** The commands enqueued are those requested, each with its payload and for its client. */
  lemma {:induction false} EnqueuedAsRequested(p: Pipeline, stages: seq<Stage>)
    requires Possible(p, stages)
    ensures After(p, stages).q.pushed == p.q.pushed + Requested(stages)
    decreases |stages|
  {
    if stages != [] {
      var t, rest := Do(p, stages[0]), Requested(stages[1..]);
      EnqueuedAsRequested(t, stages[1..]);
      var first := if stages[0].Enqueue? then [Command(SendSnapshot, stages[0].client, stages[0].payload)] else [];
      assert t.q.pushed == p.q.pushed + first;
      assert p.q.pushed + first + rest == p.q.pushed + (first + rest);
    }
  }

  /** A request for one client waits behind what is queued; one for all replaces it. */
  lemma RequestsQueue(p: Pipeline, payload: Bytes, client: Option<Word>)
    ensures Do(p, Enqueue(payload, client)).q.queue
         == (if client == None then [] else p.q.queue) + [Command(SendSnapshot, client, payload)]
    ensures Do(p, Enqueue(payload, client)).clients == p.clients
  {
  }

  /**
   Handling a posted command adds its snapshot to the strand of its client, or of every subscribed client if it is for
   all, and changes no other client. The io thread halts exactly if the command is for a client that is not registered.
   */
  lemma HandleReaches(p: Pipeline, id: Word)
    requires CanDo(p, Handle) && id in p.clients
    ensures var x, t, c := p.posted[0], Do(p, Handle), p.clients[id];
            && t.clients.Keys == p.clients.Keys
            && (t.halted <==> x.command.client.Some? && x.command.client.value !in p.clients)
            && t.clients[id].strand
               == c.strand + (if x.command.client == Some(id) || (x.command.client == None && c.subscribed)
                              then [Message(x.number, x.command.payload)] else [])
            && t.clients[id] == c.(strand := t.clients[id].strand)
  {
  }

  /** A client that registers, on any session that has kept its protocol, is ready to be served. */
  lemma JoinIsReady(p: Pipeline, id: Word, session: S.State)
    requires !p.halted && S.Inv(session)
    ensures CanDo(p, Join(id, session))
    ensures var t := Do(p, Join(id, session));
            && id in t.clients && Ready(t.clients[id]) && t.clients[id].session == session
            && t.clients - {id} == p.clients - {id} && t.q == p.q && t.posted == p.posted
  {
  }

  // ---------- The pipeline's invariant ----------

  function PostedTags(posted: seq<Posted>): seq<nat> {
    seq(|posted|, i requires 0 <= i < |posted| => posted[i].number)
  }

  ghost predicate PipelineInv(p: Pipeline) {
    && Inv(p.q)
    && p.q.popped == p.handled + PostedTags(p.posted)
    && Below(p.handled, |p.q.pushed|)
    && (forall i :: 0 <= i < |p.posted| ==>
          p.posted[i].number < |p.q.pushed| && p.posted[i].command == p.q.pushed[p.posted[i].number])
  }

  lemma HandleKeepsPipeline(p: Pipeline)
    requires PipelineInv(p) && CanDo(p, Handle)
    ensures PipelineInv(Do(p, Handle))
  {
    var t := Do(p, Handle);
    assert PostedTags(p.posted) == [p.posted[0].number] + PostedTags(t.posted);
    assert p.q.popped == t.handled + PostedTags(t.posted);
  }

  lemma PopKeepsPipeline(p: Pipeline)
    requires PipelineInv(p) && CanDo(p, PopAndPost)
    ensures PipelineInv(Do(p, PopAndPost))
  {
    PopKeepsInv(p.q);
    var t := Do(p, PopAndPost);
    assert PostedTags(t.posted) == PostedTags(p.posted) + [p.q.numbers[0]];
    assert t.q.popped == t.handled + PostedTags(t.posted);
  }

  lemma StageKeepsPipeline(p: Pipeline, e: Stage)
    requires PipelineInv(p) && CanDo(p, e)
    ensures PipelineInv(Do(p, e)) && p.handled <= Do(p, e).handled && p.q.pushed <= Do(p, e).q.pushed
  {
    match e {
      case Enqueue(payload, client) => PushKeepsInv(p.q, Command(SendSnapshot, client, payload));
      case PopAndPost => PopKeepsPipeline(p);
      case Handle => HandleKeepsPipeline(p);
      case _ =>
    }
  }

  lemma {:induction false} RunKeepsPipeline(p: Pipeline, stages: seq<Stage>)
    requires PipelineInv(p) && Possible(p, stages)
    ensures PipelineInv(After(p, stages))
    decreases |stages|
  {
    if stages != [] {
      StageKeepsPipeline(p, stages[0]);
      RunKeepsPipeline(Do(p, stages[0]), stages[1..]);
    }
  }

  // ---------- Invariant of one served client ----------

  predicate Concerns(c: Command, id: Word) {
    c.client == None || c.client == Some(id)
  }

  /** Those of numbers whose commands concern client id. */
  ghost function Concerning(numbers: seq<nat>, pushed: seq<Command>, id: Word): seq<nat>
    requires Below(numbers, |pushed|)
  {
    if numbers == [] then []
    else
      var front, last := Concerning(numbers[..|numbers| - 1], pushed, id), numbers[|numbers| - 1];
      if Concerns(pushed[last], id) then front + [last] else front
  }

  function Tags(messages: seq<Message>): seq<nat> {
    seq(|messages|, i requires 0 <= i < |messages| => messages[i].number)
  }

  function ReceiptTags(receipts: seq<Receipt>): seq<nat> {
    seq(|receipts|, i requires 0 <= i < |receipts| => receipts[i].number)
  }

  ghost predicate Faithful(messages: seq<Message>, pushed: seq<Command>) {
    forall i :: 0 <= i < |messages| ==>
      messages[i].number < |pushed| && messages[i].payload == pushed[messages[i].number].payload
  }

  /** The session accepted exactly the enqueued snapshot, at the position the receipt names. */
  ghost predicate Honest(r: Receipt, session: S.State, pushed: seq<Command>) {
    r.number < |pushed| && r.at < |session.accepted| && session.accepted[r.at] == pushed[r.number].payload
  }

  ghost predicate InSessionOrder(receipts: seq<Receipt>) {
    forall i, j :: 0 <= i < j < |receipts| ==> receipts[i].at < receipts[j].at
  }

  /** served are the numbers handled since the client's registration. */
  ghost predicate ClientInv(c: Client, served: seq<nat>, pushed: seq<Command>, id: Word)
    requires Below(served, |pushed|)
  {
    && c.subscribed
    && S.Inv(c.session)
    && (forall i :: 0 <= i < |c.receipts| ==> Honest(c.receipts[i], c.session, pushed))
    && InSessionOrder(c.receipts)
    && Faithful(c.strand, pushed)
    && (!c.session.disconnected ==> ReceiptTags(c.receipts) + Tags(c.strand) == Concerning(served, pushed, id))
  }

  /** earlier are the numbers that had been handled when the client registered. */
  ghost predicate ServedInv(p: Pipeline, id: Word, earlier: seq<nat>) {
    && PipelineInv(p)
    && earlier <= p.handled
    && id in p.clients
    && ClientInv(p.clients[id], p.handled[|earlier|..], p.q.pushed, id)
  }

  lemma {:induction false} ConcerningExtended(numbers: seq<nat>, pushed: seq<Command>, c: Command, id: Word)
    requires Below(numbers, |pushed|)
    ensures Concerning(numbers, pushed + [c], id) == Concerning(numbers, pushed, id)
  {
    if numbers != [] {
      ConcerningExtended(numbers[..|numbers| - 1], pushed, c, id);
    }
  }

  lemma ConcerningSnoc(numbers: seq<nat>, n: nat, pushed: seq<Command>, id: Word)
    requires Below(numbers, |pushed|) && n < |pushed|
    ensures Concerning(numbers + [n], pushed, id)
         == Concerning(numbers, pushed, id) + (if Concerns(pushed[n], id) then [n] else [])
  {
    assert (numbers + [n])[..|numbers|] == numbers;
  }

  lemma DispatchedTags(c: Client, m: Message)
    ensures ReceiptTags(c.receipts) + Tags(Dispatch(c, m).strand)
         == ReceiptTags(c.receipts) + Tags(c.strand) + [m.number]
  {
    assert Tags(c.strand + [m]) == Tags(c.strand) + [m.number];
  }

  lemma DispatchServes(c: Client, served: seq<nat>, n: nat, pushed: seq<Command>, id: Word)
    requires Below(served, |pushed|) && n < |pushed| && ClientInv(c, served, pushed, id)
    ensures Below(served + [n], |pushed|)
    ensures Concerns(pushed[n], id) ==> ClientInv(Dispatch(c, Message(n, pushed[n].payload)), served + [n], pushed, id)
    ensures !Concerns(pushed[n], id) ==> ClientInv(c, served + [n], pushed, id)
  {
    ConcerningSnoc(served, n, pushed, id);
    var m := Message(n, pushed[n].payload);
    if Concerns(pushed[n], id) {
      DispatchedTags(c, m);
      assert Faithful(Dispatch(c, m).strand, pushed);
    } else {
      assert Concerning(served, pushed, id) + [] == Concerning(served, pushed, id);
    }
  }

  lemma DropThenSnoc(s: seq<nat>, k: nat, n: nat)
    requires k <= |s|
    ensures (s + [n])[k..] == s[k..] + [n]
  {
  }

  lemma HandleServes(p: Pipeline, id: Word, earlier: seq<nat>)
    requires ServedInv(p, id, earlier) && CanDo(p, Handle)
    ensures ServedInv(Do(p, Handle), id, earlier)
  {
    HandleKeepsPipeline(p);
    var n, t := p.posted[0].number, Do(p, Handle);
    DispatchServes(p.clients[id], p.handled[|earlier|..], n, p.q.pushed, id);
    assert t.handled == p.handled + [n];
    DropThenSnoc(p.handled, |earlier|, n);
  }

  lemma EnqueueServes(p: Pipeline, payload: Bytes, client: Option<Word>, id: Word, earlier: seq<nat>)
    requires ServedInv(p, id, earlier)
    ensures ServedInv(Do(p, Enqueue(payload, client)), id, earlier)
  {
    var c := Command(SendSnapshot, client, payload);
    PushKeepsInv(p.q, c);
    ConcerningExtended(p.handled[|earlier|..], p.q.pushed, c, id);
    forall i | 0 <= i < |p.clients[id].receipts|
      ensures Honest(p.clients[id].receipts[i], p.clients[id].session, p.q.pushed + [c])
    {
      assert Honest(p.clients[id].receipts[i], p.clients[id].session, p.q.pushed);
    }
  }

  /** Whatever the session goes on to do, receipts stay honest, and a disconnected session stays so. */
  lemma SessionServes(c: Client, session: S.State, served: seq<nat>, pushed: seq<Command>, id: Word)
    requires Below(served, |pushed|) && ClientInv(c, served, pushed, id)
    requires S.Inv(session) && c.session.accepted <= session.accepted
    requires c.session.disconnected ==> session.disconnected
    ensures ClientInv(c.(session := session), served, pushed, id)
  {
    forall i | 0 <= i < |c.receipts|
      ensures Honest(c.receipts[i], session, pushed)
    {
      assert Honest(c.receipts[i], c.session, pushed);
    }
  }

  /** A connected session accepts the message at the end; a disconnected one changes nothing. */
  lemma SendAccepts(s: S.State, message: Bytes)
    requires S.Inv(s)
    ensures S.Inv(S.AfterSend(s, message)) && S.AfterSend(s, message).disconnected == s.disconnected
    ensures s.disconnected ==> S.AfterSend(s, message) == s
    ensures !s.disconnected ==> S.AfterSend(s, message).accepted == s.accepted + [message]
  {
    S.SendKeepsInv(s, message);
  }

  /** The head of the strand becomes a receipt of a connected session; their order stays the same. */
  lemma DeliveredTags(c: Client)
    requires S.Inv(c.session) && c.strand != [] && !c.session.disconnected
    ensures Delivered(c).receipts == c.receipts + [Receipt(c.strand[0].number, |c.session.accepted|)]
    ensures ReceiptTags(Delivered(c).receipts) + Tags(Delivered(c).strand) == ReceiptTags(c.receipts) + Tags(c.strand)
  {
    var m, d := c.strand[0], Delivered(c);
    SendAccepts(c.session, m.payload);
    assert |d.session.accepted| == |c.session.accepted| + 1;
    assert Tags(c.strand) == [m.number] + Tags(d.strand);
    assert ReceiptTags(d.receipts) == ReceiptTags(c.receipts) + [m.number];
  }

  /** A receipt for the message accepted last is as honest as the others, and comes after them. */
  lemma OneMoreReceipt(receipts: seq<Receipt>, r: Receipt, before: S.State, after: S.State, pushed: seq<Command>)
    requires forall i :: 0 <= i < |receipts| ==> Honest(receipts[i], before, pushed)
    requires InSessionOrder(receipts)
    requires r.number < |pushed| && r.at == |before.accepted|
    requires after.accepted == before.accepted + [pushed[r.number].payload]
    ensures forall i :: 0 <= i < |receipts + [r]| ==> Honest((receipts + [r])[i], after, pushed)
    ensures InSessionOrder(receipts + [r])
  {
    forall i | 0 <= i < |receipts|
      ensures Honest(receipts[i], after, pushed) && receipts[i].at < r.at
    {
      assert Honest(receipts[i], before, pushed);
    }
  }

  lemma DeliverServes(c: Client, served: seq<nat>, pushed: seq<Command>, id: Word)
    requires Below(served, |pushed|) && ClientInv(c, served, pushed, id) && c.strand != []
    ensures ClientInv(Delivered(c), served, pushed, id)
  {
    SendAccepts(c.session, c.strand[0].payload);
    if !c.session.disconnected {
      DeliveredTags(c);
      var r := Receipt(c.strand[0].number, |c.session.accepted|);
      OneMoreReceipt(c.receipts, r, c.session, Delivered(c).session, pushed);
    }
  }

  ghost predicate Replaces(e: Stage, id: Word) {
    (e.Join? || e.Leave?) && e.id == id
  }

  lemma StageServes(p: Pipeline, e: Stage, id: Word, earlier: seq<nat>)
    requires ServedInv(p, id, earlier) && CanDo(p, e) && !Replaces(e, id)
    ensures ServedInv(Do(p, e), id, earlier)
  {
    match e {
      case Enqueue(payload, client) => EnqueueServes(p, payload, client, id, earlier);
      case PopAndPost => PopKeepsPipeline(p);
      case Handle => HandleServes(p, id, earlier);
      case Deliver(other) =>
        if other == id {
          DeliverServes(p.clients[id], p.handled[|earlier|..], p.q.pushed, id);
        }
      case SessionStep(other, own) =>
        if other == id {
          var session := p.clients[id].session;
          S.StepKeepsInv(session, own);
          S.StepAccepts(session, own);
          SessionServes(p.clients[id], S.Step(session, own), p.handled[|earlier|..], p.q.pushed, id);
        }
      case Join(other, session) =>
      case Leave(other) =>
    }
  }

  lemma {:induction false} RunServes(p: Pipeline, stages: seq<Stage>, id: Word, earlier: seq<nat>)
    requires ServedInv(p, id, earlier) && Possible(p, stages)
    requires forall i :: 0 <= i < |stages| ==> !Replaces(stages[i], id)
    ensures ServedInv(After(p, stages), id, earlier)
    decreases |stages|
  {
    if stages != [] {
      StageServes(p, stages[0], id, earlier);
      RunServes(Do(p, stages[0]), stages[1..], id, earlier);
    }
  }

  // ---------- End to end ----------

  /** Nothing has been enqueued yet; any clients may be registered. */
  predicate Fresh(p: Pipeline) {
    p.q == State([], [], [], [], []) && p.posted == [] && p.handled == []
  }

  /** A subscribed client on a session of any state that has not been sent anything yet, as after its Join. */
  ghost predicate Ready(c: Client) {
    c.subscribed && S.Inv(c.session) && c.strand == [] && c.receipts == []
  }

  /** Number k is queued or posted, or yet to be enqueued: a client it concerns that registers now is owed it. */
  ghost predicate Awaited(p: Pipeline, k: nat) {
    k >= Oldest(p.q) || k in PostedTags(p.posted)
  }

  /** Number k has reached the client, or is queued, posted or on its session's strand. */
  ghost predicate AcceptedOrPending(p: Pipeline, id: Word, k: nat)
    requires id in p.clients
  {
    || k in ReceiptTags(p.clients[id].receipts)
    || k in p.q.numbers
    || k in PostedTags(p.posted)
    || k in Tags(p.clients[id].strand)
  }

  lemma {:induction false} ConcerningMembers(numbers: seq<nat>, pushed: seq<Command>, id: Word)
    requires Below(numbers, |pushed|)
    ensures forall k :: k in Concerning(numbers, pushed, id) <==>
              k in numbers && k < |pushed| && Concerns(pushed[k], id)
  {
    if numbers != [] {
      var front, last := numbers[..|numbers| - 1], numbers[|numbers| - 1];
      ConcerningMembers(front, pushed, id);
      assert numbers == front + [last];
    }
  }

  lemma {:induction false} ConcerningIncreasing(numbers: seq<nat>, pushed: seq<Command>, id: Word)
    requires Below(numbers, |pushed|) && Increasing(numbers)
    ensures Increasing(Concerning(numbers, pushed, id))
  {
    if numbers != [] {
      var front, last := numbers[..|numbers| - 1], numbers[|numbers| - 1];
      ConcerningIncreasing(front, pushed, id);
      ConcerningMembers(front, pushed, id);
      var some := Concerning(front, pushed, id);
      forall i | 0 <= i < |some|
        ensures some[i] < last
      {
        assert some[i] in some;
      }
      IncreasingConcat(some, [last], last);
    }
  }

  /** What a connected client was sent since it registered, accepted first, is numbered in increasing order. */
  lemma ServedInOrder(p: Pipeline, id: Word, earlier: seq<nat>)
    requires ServedInv(p, id, earlier) && !p.clients[id].session.disconnected
    ensures Increasing(ReceiptTags(p.clients[id].receipts))
    ensures forall k :: k in ReceiptTags(p.clients[id].receipts) + Tags(p.clients[id].strand) <==>
                k in p.handled[|earlier|..] && k < |p.q.pushed| && Concerns(p.q.pushed[k], id)
  {
    var c, served := p.clients[id], p.handled[|earlier|..];
    assert forall i :: 0 <= i < |served| ==> served[i] == p.q.popped[|earlier| + i];
    ConcerningMembers(served, p.q.pushed, id);
    ConcerningIncreasing(served, p.q.pushed, id);
    var sent := ReceiptTags(c.receipts) + Tags(c.strand);
    assert forall i :: 0 <= i < |c.receipts| ==> ReceiptTags(c.receipts)[i] == sent[i];
  }

  lemma AwaitedNotHandled(p: Pipeline, k: nat)
    requires PipelineInv(p) && Awaited(p, k)
    ensures forall i :: 0 <= i < |p.handled| ==> p.handled[i] < k
  {
    assert forall i :: 0 <= i < |p.handled| ==> p.handled[i] == p.q.popped[i];
    if k in PostedTags(p.posted) {
      var j :| 0 <= j < |p.posted| && PostedTags(p.posted)[j] == k;
      assert p.q.popped[|p.handled| + j] == k;
    }
  }

  lemma PoppedOrQueuedIsServed(p: Pipeline, id: Word, earlier: seq<nat>, k: nat)
    requires ServedInv(p, id, earlier) && !p.clients[id].session.disconnected
    requires k < |p.q.pushed| && Concerns(p.q.pushed[k], id) && k !in earlier
    requires k in p.q.popped || k in p.q.numbers
    ensures AcceptedOrPending(p, id, k)
  {
    ServedInOrder(p, id, earlier);
    assert p.handled == earlier + p.handled[|earlier|..];
  }

  /** Request k, or a later one for all, has reached client id or is on its way. */
  ghost predicate Fulfilled(p: Pipeline, id: Word, k: nat, requests: seq<Command>)
    requires id in p.clients
  {
    exists j :: k <= j < |requests| && AcceptedOrPending(p, id, j) && (j == k || IsBroadcast(requests[j]))
  }

  lemma ServedOrSuperseded(p: Pipeline, id: Word, earlier: seq<nat>, k: nat)
    requires ServedInv(p, id, earlier) && !p.clients[id].session.disconnected
    requires k < |p.q.pushed| && Concerns(p.q.pushed[k], id)
    requires forall i :: 0 <= i < |earlier| ==> earlier[i] < k
    ensures Fulfilled(p, id, k, p.q.pushed)
  {
    AllCovered(p.q);
    if k in p.q.popped || k in p.q.numbers {
      PoppedOrQueuedIsServed(p, id, earlier, k);
    } else {
      assert Covered(p.q, k);
      var j :| k < j < |p.q.pushed| && IsBroadcast(p.q.pushed[j]) && (j in p.q.popped || j in p.q.numbers);
      PoppedOrQueuedIsServed(p, id, earlier, j);
    }
  }

  /** What the session accepted is what was requested, unaltered and in the order of the receipts. */
  ghost predicate AcceptedHonestly(t: Pipeline, id: Word, requests: seq<Command>)
    requires id in t.clients
  {
    var c := t.clients[id];
    && (forall i :: 0 <= i < |c.receipts| ==> Honest(c.receipts[i], c.session, requests))
    && InSessionOrder(c.receipts)
  }

  /**
   For a client registered at p: receipts are in the order of the requests and concern it, and every request concerning
   it that had not been handled at p is accepted or pending, or a later one for all is.
   */
  ghost predicate KeepsUp(p: Pipeline, t: Pipeline, id: Word, requests: seq<Command>)
    requires id in t.clients
  {
    var receipts := t.clients[id].receipts;
    && Increasing(ReceiptTags(receipts))
    && (forall i :: 0 <= i < |receipts| ==>
          receipts[i].number < |requests| && Concerns(requests[receipts[i].number], id))
    && (forall k {:trigger Fulfilled(t, id, k, requests)} ::
          0 <= k < |requests| && Awaited(p, k) && Concerns(requests[k], id) ==> Fulfilled(t, id, k, requests))
  }

  lemma ServedHonestly(t: Pipeline, id: Word, earlier: seq<nat>)
    requires ServedInv(t, id, earlier)
    ensures AcceptedHonestly(t, id, t.q.pushed)
  {
  }

  lemma ConnectedKeepsUp(p: Pipeline, t: Pipeline, id: Word)
    requires PipelineInv(p) && ServedInv(t, id, p.handled) && !t.clients[id].session.disconnected
    ensures KeepsUp(p, t, id, t.q.pushed)
  {
    ServedInOrder(t, id, p.handled);
    var receipts := t.clients[id].receipts;
    forall i | 0 <= i < |receipts|
      ensures receipts[i].number < |t.q.pushed| && Concerns(t.q.pushed[receipts[i].number], id)
    {
      assert ReceiptTags(receipts)[i] == receipts[i].number;
    }
    forall k | 0 <= k < |t.q.pushed| && Awaited(p, k) && Concerns(t.q.pushed[k], id)
      ensures Fulfilled(t, id, k, t.q.pushed)
    {
      AwaitedNotHandled(p, k);
      ServedOrSuperseded(t, id, p.handled, k);
    }
  }

  lemma ReadyIsServed(p: Pipeline, id: Word)
    requires PipelineInv(p) && id in p.clients && Ready(p.clients[id])
    ensures ServedInv(p, id, p.handled)
  {
    assert p.handled[|p.handled|..] == [];
  }

  lemma RequestsOfBoth(start: Pipeline, before: seq<Stage>, stages: seq<Stage>)
    requires Fresh(start) && Possible(start, before) && Possible(After(start, before), stages)
    ensures After(After(start, before), stages).q.pushed == Requested(before) + Requested(stages)
  {
    EnqueuedAsRequested(start, before);
    EnqueuedAsRequested(After(start, before), stages);
    assert start.q.pushed + Requested(before) == Requested(before);
  }

  lemma EndToEndFrom(p: Pipeline, stages: seq<Stage>, id: Word)
    requires PipelineInv(p) && id in p.clients && Ready(p.clients[id]) && Possible(p, stages)
    requires forall i :: 0 <= i < |stages| ==> !Replaces(stages[i], id)
    ensures var t := After(p, stages);
            && id in t.clients
            && AcceptedHonestly(t, id, t.q.pushed)
            && (!t.clients[id].session.disconnected ==> KeepsUp(p, t, id, t.q.pushed))
  {
    ReadyIsServed(p, id);
    RunServes(p, stages, id, p.handled);
    var t := After(p, stages);
    ServedHonestly(t, id, p.handled);
    if !t.clients[id].session.disconnected {
      ConnectedKeepsUp(p, t, id);
    }
  }

  /**
   End to end, for a subscribed client from the moment it registers, in any run of the pipeline and of its session: it
   accepts the snapshots requested for it or for all, and while its session is connected it keeps up with the requests.
   */
  lemma EndToEnd(start: Pipeline, before: seq<Stage>, stages: seq<Stage>, id: Word)
    requires Fresh(start) && Possible(start, before)
    requires var p := After(start, before);
             id in p.clients && Ready(p.clients[id]) && Possible(p, stages)
    requires forall i :: 0 <= i < |stages| ==> !Replaces(stages[i], id)
    ensures var p := After(start, before);
            var t := After(p, stages);
            var requests := Requested(before) + Requested(stages);
            && id in t.clients
            && AcceptedHonestly(t, id, requests)
            && (!t.clients[id].session.disconnected ==> KeepsUp(p, t, id, requests))
  {
    FreshInv(start);
    RunKeepsPipeline(start, before);
    RequestsOfBoth(start, before, stages);
    EndToEndFrom(After(start, before), stages, id);
  }

  lemma FreshInv(p: Pipeline)
    requires Fresh(p)
    ensures PipelineInv(p)
  {
  }

  // ---------- The object ----------

  /** The broadcaster: its queue is real; the io thread's handlers and the clients' strands are asio's. */
  class Broadcaster {
    const queue: CommandQueue
    ghost var posted: seq<Posted>
    ghost var handled: seq<nat>
    ghost var clients: map<Word, Client>
    ghost var halted: bool

    ghost function View(): Pipeline
      reads this, queue
    {
      Pipeline(queue.View(), posted, handled, clients, halted)
    }

    constructor (ghost clients: map<Word, Client>)
      ensures View() == Pipeline(State([], [], [], [], []), [], [], clients, false) && fresh(queue)
    {
      queue := new CommandQueue();
      posted, handled, halted := [], [], false;
      this.clients := clients;
    }

    method EnqueueSnapshot(payload: Bytes, client: Option<Word>)
      requires Inv(queue.View())
      modifies queue
      ensures View() == Do(old(View()), Enqueue(payload, client)) && Inv(queue.View())
      ensures queue.queue == (if client == None then [] else old(queue.queue))
                             + [Command(SendSnapshot, client, payload)]
    {
      queue.Push(Command(SendSnapshot, client, payload));
    }

    /** One turn of run: pop a command, post its handler to the io thread. */
    method RunOnce()
      requires Inv(queue.View()) && |queue.queue| > 0
      modifies this`posted, queue
      ensures View() == Do(old(View()), PopAndPost) && Inv(queue.View())
    {
      ghost var number := queue.numbers[0];
      var c := queue.Pop();
      posted := posted + [Posted(number, c)];
    }
  }
}
