/**
 The server: sessions running their write/disconnect protocol, the registry they share, and the HELLO handshake that
 moves a client from one session to another. Calls into another session's strand wait there; calls into the strand
 that is already running happen at once. get_session is the documented one, which answers "not found" with null; the
 last section treats the implementation, which throws.
 */
module TcpServers {
  import opened Common
  import opened HelloParser
  import opened Registries
  import opened ClientLists
  import S = SessionProtocol

  // ---------- Handlers ----------

  function Ascii(s: string): Bytes {
    seq(|s|, i requires 0 <= i < |s| => s[i] as int % 256)
  }

  const ERROR_REPLY: Bytes := Ascii("ERR expected `HELLO <client_id>`\n")
  const MOVED_NOTICE: Bytes := Ascii("INFO disconnected: ") + Ascii("reconnected from another socket\n")

  function OkReply(id: ClientId): Bytes {
    Ascii("OK HELLO ") + Decimal(id) + [LINE_FEED]
  }

  /** The session a HELLO from `session` takes client id away from. */
  function Superseded(r: Registry, id: ClientId, session: SessionId): Option<SessionId> {
    var previous := SessionOf(r, id);
    if previous.Some? && previous.value != session then previous else None
  }

  function Reply(id: ClientId): S.Call {
    S.Send(if id == 0 then ERROR_REPLY else OkReply(id))
  }

  /** The registry after a frame announcing id (0 if it is not a HELLO). */
  ghost function Greeted(r: Registry, id: ClientId, session: SessionId): Registry {
    if id == 0 then r else Apply(Apply(r, AddSession(id, Some(session))), Subscribe(id))
  }

  /** The calls HandleMessage makes on sessions, in order. */
  function GreetingCalls(r: Registry, id: ClientId, session: SessionId): seq<(SessionId, S.Call)> {
    var previous := Superseded(r, id, session);
    (if id != 0 && previous.Some? then [(previous.value, S.Send(MOVED_NOTICE)), (previous.value, S.Stop)] else [])
    + [(session, Reply(id))]
  }

  // ---------- What is said ----------

  /** The message is the text, in ASCII. */
  ghost predicate Spells(message: Bytes, text: string) {
    |message| == |text| && forall i :: 0 <= i < |text| ==> message[i] == text[i] as int
  }

  /** "OK HELLO ", the number in decimal digits without leading zeros, and a line feed. */
  ghost predicate ConfirmsId(message: Bytes, id: nat) {
    && |message| > 10 && Spells(message[..9], "OK HELLO ") && message[|message| - 1] == 10
    && var digits := message[9..|message| - 1];
       digits[0] != 48 && AllDigits(digits) && DigitsValue(digits) == id
  }

  ghost predicate SendsTo(call: (SessionId, S.Call), session: SessionId) {
    call.0 == session && call.1.Send?
  }

  /** calls answer a HELLO for id: the session that loses the client is told and stopped, then the id is confirmed. */
  ghost predicate AnswersHello(calls: seq<(SessionId, S.Call)>, r: Registry, id: ClientId, session: SessionId) {
    var previous := SessionOf(r, id);
    && (if previous.Some? && previous.value != session then
          && |calls| == 3
          && SendsTo(calls[0], previous.value)
          && |calls[0].1.message| > 19
          && Spells(calls[0].1.message[..19], "INFO disconnected: ")
          && Spells(calls[0].1.message[19..], "reconnected from another socket\n")
          && calls[1] == (previous.value, S.Stop)
        else |calls| == 1)
    && SendsTo(calls[|calls| - 1], session) && ConfirmsId(calls[|calls| - 1].1.message, id)
  }

  ghost predicate AnswersError(calls: seq<(SessionId, S.Call)>, session: SessionId) {
    |calls| == 1 && SendsTo(calls[0], session) && Spells(calls[0].1.message, "ERR expected `HELLO <client_id>`\n")
  }

  /** digits are those of a HELLO frame, and not a multiple of 2^64. */
  ghost predicate Announces(frame: Bytes, digits: Bytes) {
    IsHello(frame, digits) && Wrap(DigitsValue(digits)) != 0
  }

  /** A HELLO is answered as one, every other frame with the error text. */
  ghost predicate Answers(calls: seq<(SessionId, S.Call)>, r: Registry, frame: Bytes, session: SessionId) {
    && (forall digits :: Announces(frame, digits) ==>
          AnswersHello(calls, r, Wrap(DigitsValue(digits)), session))
    && ((forall digits :: !Announces(frame, digits)) ==> AnswersError(calls, session))
  }

  lemma OkConfirms(id: ClientId)
    requires id != 0
    ensures ConfirmsId(OkReply(id), id)
  {
    var message := OkReply(id);
    assert message[..9] == Ascii("OK HELLO ");
    assert message[9..|message| - 1] == Decimal(id);
    NoLeadingZero(id);
  }

  lemma AsciiSpells(text: string)
    requires forall i :: 0 <= i < |text| ==> text[i] as int < 256
    ensures Spells(Ascii(text), text)
  {
  }

  lemma NoticeSpells()
    ensures |MOVED_NOTICE| > 19
    ensures Spells(MOVED_NOTICE[..19], "INFO disconnected: ")
    ensures Spells(MOVED_NOTICE[19..], "reconnected from another socket\n")
  {
    AsciiSpells("INFO disconnected: ");
    AsciiSpells("reconnected from another socket\n");
    assert MOVED_NOTICE[..19] == Ascii("INFO disconnected: ");
    assert MOVED_NOTICE[19..] == Ascii("reconnected from another socket\n");
  }

  lemma GreetingCallsAnswer(r: Registry, frame: Bytes, session: SessionId)
    ensures Answers(GreetingCalls(r, ClientIdOf(frame), session), r, frame, session)
  {
    var id := ClientIdOf(frame);
    AsciiSpells("ERR expected `HELLO <client_id>`\n");
    NoticeSpells();
    if id != 0 {
      OkConfirms(id);
    }
    forall digits | Announces(frame, digits)
      ensures AnswersHello(GreetingCalls(r, id, session), r, Wrap(DigitsValue(digits)), session)
    {
      ClientIdOfHello(frame, digits);
    }
    RejectedFrames(frame);
    if forall digits :: !Announces(frame, digits) {
      assert forall digits :: IsHello(frame, digits) ==> Announces(frame, digits) || Wrap(DigitsValue(digits)) == 0;
      assert id == 0;
    }
  }

  ghost function Departed(r: Registry, session: SessionId): Registry {
    if session in r.owner && SessionOf(r, r.owner[session]) == Some(session) then
      Apply(r, RemoveSession(r.owner[session]))
    else r
  }

  class TcpServer {
    const clientList: ClientList
    var calls: seq<(SessionId, S.Call)>  // made on session objects so far

    constructor ()
      ensures clientList.Valid() && fresh(clientList.Repr) && clientList.View() == EMPTY && calls == []
    {
      clientList := new ClientList();
      calls := [];
    }

    method HandleMessage(frame: Bytes, session: SessionId)
      requires clientList.Valid() && this !in clientList.Repr && Sound(clientList.View())
      modifies this, clientList.Repr
      ensures clientList.Valid() && fresh(clientList.Repr - old(clientList.Repr)) && Sound(clientList.View())
      ensures clientList.View() == Greeted(old(clientList.View()), ClientIdOf(frame), session)
      ensures calls == old(calls) + GreetingCalls(old(clientList.View()), ClientIdOf(frame), session)
    {
      var id := ParseClientId(frame);
      GreetedKeepsSound(clientList.View(), id, session);
      if id == 0 {
        calls := calls + [(session, S.Send(ERROR_REPLY))];
      } else {
        Greet(id, session);
      }
    }

    /** The client moves to the session, which gets its confirmation; the session that had the client is stopped. */
    method Greet(id: ClientId, session: SessionId)
      requires clientList.Valid() && this !in clientList.Repr && id != 0
      modifies this, clientList.Repr
      ensures clientList.Valid() && fresh(clientList.Repr - old(clientList.Repr))
      ensures clientList.View() == Greeted(old(clientList.View()), id, session)
      ensures calls == old(calls) + GreetingCalls(old(clientList.View()), id, session)
    {
      var found := clientList.GetSession(id);
      var previous := if found.Some? then found.value else None;
      Register(id, session);
      var farewell := [];
      if previous.Some? && previous.value != session {
        farewell := [(previous.value, S.Send(MOVED_NOTICE)), (previous.value, S.Stop)];
      }
      calls := calls + farewell + [(session, S.Send(OkReply(id)))];
    }

    method Register(id: ClientId, session: SessionId)
      requires clientList.Valid() && id != 0
      modifies clientList.Repr
      ensures clientList.Valid() && fresh(clientList.Repr - old(clientList.Repr))
      ensures clientList.View() == Greeted(old(clientList.View()), id, session)
    {
      clientList.AddSession(id, Some(session));
      var known := clientList.Subscribe(id);
    }

    method HandleDisconnect(session: SessionId)
      requires clientList.Valid() && Sound(clientList.View())
      modifies clientList.Repr
      ensures clientList.Valid() && clientList.Repr == old(clientList.Repr) && Sound(clientList.View())
      ensures clientList.View() == Departed(old(clientList.View()), session)
    {
      var id := clientList.FindClientIdBySession(session);
      if id == None {
        return;
      }
      var current := clientList.GetSession(id.value);
      if current == Some(Some(session)) {
        ApplyKeepsSound(clientList.View(), RemoveSession(id.value));
        clientList.RemoveSession(id.value);
      }
    }
  }

  // ---------- The server as a state machine ----------

  datatype Server = Server(
    registry: Registry,
    sessions: map<SessionId, S.State>,
    strands: map<SessionId, seq<S.Call>>,      // calls waiting on each session's strand
    bound: set<(ClientId, SessionId)>)         // every binding a HELLO ever made

  const IDLE := Server(EMPTY, map[], map[], {})

  datatype Event =
    | Accept(session: SessionId)
    | RunStrand(session: SessionId)
    | Frame(session: SessionId, frame: Bytes)
    | ReadFailed(session: SessionId)
    | WriteFinished(session: SessionId, index: nat, error: bool)
    | Post(session: SessionId, message: Bytes)  // a broadcast handler's SendMsg, from outside the strand

  predicate Enabled(v: Server, e: Event) {
    match e
    case Accept(s) => s !in v.sessions && s !in v.strands
    case RunStrand(s) => s in v.sessions && s in v.strands && v.strands[s] != []
    case Frame(s, _) => s in v.sessions && v.sessions[s].pendingReads > 0
    case ReadFailed(s) => s in v.sessions && v.sessions[s].pendingReads > 0
    case WriteFinished(s, index, _) => s in v.sessions && index < |v.sessions[s].pendingWrites|
    case Post(s, _) => s in v.sessions && s in v.strands
  }

  /** The event as the session sees it; a Post only reaches its strand. */
  ghost function OwnEvent(v: Server, e: Event): S.Event
    requires Enabled(v, e) && !e.Post?
  {
    match e
    case Accept(_) => S.Start
    case RunStrand(s) => S.Dispatched(v.strands[s][0])
    case Frame(_, frame) => S.ReadDone(false, [Reply(ClientIdOf(frame))])
    case ReadFailed(_) => S.ReadDone(true, [])
    case WriteFinished(_, index, error) => S.WriteDone(index, error)
  }

  ghost function StateOf(v: Server, s: SessionId): S.State {
    if s in v.sessions then v.sessions[s] else S.INITIAL
  }

  ghost function SessionAfter(v: Server, e: Event): S.State
    requires Enabled(v, e)
  {
    var before := StateOf(v, e.session);
    if e.Post? then before else S.Step(before, OwnEvent(v, e))
  }

  /** The event makes the session run its disconnect callback, which is HandleDisconnect. */
  ghost predicate Reports(v: Server, e: Event)
    requires Enabled(v, e)
  {
    e.session in v.sessions && SessionAfter(v, e).callbacks > v.sessions[e.session].callbacks
  }

  ghost function RegistryAfter(v: Server, e: Event): Registry
    requires Enabled(v, e)
  {
    var greeted := if e.Frame? then Greeted(v.registry, ClientIdOf(e.frame), e.session) else v.registry;
    if Reports(v, e) then Departed(greeted, e.session) else greeted
  }

  ghost function StrandsAfter(v: Server, e: Event): map<SessionId, seq<S.Call>>
    requires Enabled(v, e)
  {
    match e
    case Accept(s) => v.strands[s := []]
    case RunStrand(s) => v.strands[s := v.strands[s][1..]]
    case Frame(s, frame) =>
      var id := ClientIdOf(frame);
      var previous := Superseded(v.registry, id, s);
      if id != 0 && previous.Some? && previous.value in v.strands then
        v.strands[previous.value := v.strands[previous.value] + [S.Send(MOVED_NOTICE), S.Stop]]
      else v.strands
    case Post(s, message) => v.strands[s := v.strands[s] + [S.Send(message)]]
    case _ => v.strands
  }

  ghost function Step(v: Server, e: Event): Server
    requires Enabled(v, e)
  {
    Server(
      RegistryAfter(v, e),
      v.sessions[e.session := SessionAfter(v, e)],
      StrandsAfter(v, e),
      if Greets(e) then v.bound + {(ClientIdOf(e.frame), e.session)} else v.bound)
  }

  ghost predicate Greets(e: Event) {
    e.Frame? && ClientIdOf(e.frame) != 0
  }

  ghost predicate Legal(v: Server, events: seq<Event>)
    decreases |events|
  {
    events == [] || (Enabled(v, events[0]) && Legal(Step(v, events[0]), events[1..]))
  }

  ghost function Run(v: Server, events: seq<Event>): Server
    requires Legal(v, events)
    decreases |events|
  {
    if events == [] then v else Run(Step(v, events[0]), events[1..])
  }

  // ---------- Invariant ----------

  /** The session was told to stop, and the Stop is still waiting on its strand, or it is disconnected. */
  ghost predicate StoppedOrStopping(v: Server, s: SessionId) {
    || (s in v.sessions && v.sessions[s].disconnected)
    || (s in v.strands && S.Stop in v.strands[s])
  }

  ghost predicate KnownSessions(v: Server) {
    && v.strands.Keys == v.sessions.Keys
    && (forall id :: id in v.registry.clients && v.registry.clients[id].session.Some? ==>
          (id, v.registry.clients[id].session.value) in v.bound)
    && (forall b :: b in v.bound ==> b.1 in v.sessions)
  }

  ghost predicate Inv(v: Server) {
    && Sound(v.registry)
    && (forall s :: s in v.sessions ==> S.Inv(v.sessions[s]))
    && KnownSessions(v)
    && (forall b :: b in v.bound ==> SessionOf(v.registry, b.0) == Some(b.1) || StoppedOrStopping(v, b.1))
  }

  /** What a step does to its session: the session's invariant holds, disconnect is final, and is what gets reported. */
  lemma SessionProgress(v: Server, e: Event)
    requires Inv(v) && Enabled(v, e)
    ensures S.Inv(SessionAfter(v, e))
    ensures e.session in v.sessions && v.sessions[e.session].disconnected ==> SessionAfter(v, e).disconnected
    ensures Reports(v, e) ==> SessionAfter(v, e).disconnected
  {
    if !e.Post? {
      S.StepKeepsInv(StateOf(v, e.session), OwnEvent(v, e));
      S.StepAccepts(StateOf(v, e.session), OwnEvent(v, e));
    }
  }

  lemma GreetedKeepsSound(r: Registry, id: ClientId, session: SessionId)
    requires Sound(r)
    ensures Sound(Greeted(r, id, session))
  {
    ApplyKeepsSound(r, AddSession(id, Some(session)));
    ApplyKeepsSound(Apply(r, AddSession(id, Some(session))), Subscribe(id));
  }

  /** What a greeting does to every client's current session. */
  lemma GreetedSessions(r: Registry, id: ClientId, session: SessionId, other: ClientId)
    ensures SessionOf(Greeted(r, id, session), other)
         == if id != 0 && other == id then Some(session) else SessionOf(r, other)
  {
  }

  /**
   HandleDisconnect removes at most the one client its session is current for; the current-session guard never fails.
   */
  lemma DepartedSessions(r: Registry, session: SessionId, other: ClientId)
    requires Sound(r)
    ensures Sound(Departed(r, session))
    ensures session in r.owner ==> SessionOf(r, r.owner[session]) == Some(session)
    ensures Departed(r, session).clients
         == if session in r.owner then r.clients - {r.owner[session]} else r.clients
    ensures SessionOf(r, other) != Some(session) ==> SessionOf(Departed(r, session), other) == SessionOf(r, other)
  {
  }

  lemma StepKeepsSound(v: Server, e: Event)
    requires Inv(v) && Enabled(v, e)
    ensures Sound(Step(v, e).registry)
  {
    var greeted := if e.Frame? then Greeted(v.registry, ClientIdOf(e.frame), e.session) else v.registry;
    if e.Frame? {
      GreetedKeepsSound(v.registry, ClientIdOf(e.frame), e.session);
    }
    DepartedSessions(greeted, e.session, 0);
  }

  lemma StopWaits(v: Server, e: Event, s: SessionId)
    requires Enabled(v, e) && s in v.strands && S.Stop in v.strands[s]
    requires e == RunStrand(s) ==> v.strands[s][0] != S.Stop
    ensures s in StrandsAfter(v, e) && S.Stop in StrandsAfter(v, e)[s]
  {
  }

  /** A session that is stopped or stopping stays so. */
  lemma StoppingIsFinal(v: Server, e: Event, s: SessionId)
    requires Inv(v) && Enabled(v, e) && StoppedOrStopping(v, s)
    ensures StoppedOrStopping(Step(v, e), s)
  {
    if s in v.sessions && v.sessions[s].disconnected {
      SessionProgress(v, e);
    } else if e == RunStrand(s) && v.strands[s][0] == S.Stop {
      assert SessionAfter(v, e).disconnected;
    } else {
      StopWaits(v, e, s);
    }
  }

  /** How a step can change a client's current session: a HELLO moves it, or its session's disconnect removes it. */
  lemma CurrentSessionAfter(v: Server, e: Event, id: ClientId)
    requires Inv(v) && Enabled(v, e)
    ensures var now := SessionOf(Step(v, e).registry, id);
            || now == SessionOf(v.registry, id)
            || (Greets(e) && ClientIdOf(e.frame) == id && now == Some(e.session))
            || (now == None && SessionAfter(v, e).disconnected
                && (SessionOf(v.registry, id) == Some(e.session) || (Greets(e) && ClientIdOf(e.frame) == id)))
  {
    SessionProgress(v, e);
    var greeted := if e.Frame? then Greeted(v.registry, ClientIdOf(e.frame), e.session) else v.registry;
    if e.Frame? {
      GreetedSessions(v.registry, ClientIdOf(e.frame), e.session, id);
      GreetedKeepsSound(v.registry, ClientIdOf(e.frame), e.session);
    }
    DepartedSessions(greeted, e.session, id);
  }

  lemma BoundAfter(v: Server, e: Event, b: (ClientId, SessionId))
    requires Inv(v) && Enabled(v, e) && b in Step(v, e).bound
    ensures SessionOf(Step(v, e).registry, b.0) == Some(b.1) || StoppedOrStopping(Step(v, e), b.1)
  {
    var t := Step(v, e);
    SessionProgress(v, e);
    CurrentSessionAfter(v, e, b.0);
    if b in v.bound {
      if StoppedOrStopping(v, b.1) {
        StoppingIsFinal(v, e, b.1);
      } else if Greets(e) && ClientIdOf(e.frame) == b.0 && e.session != b.1 {
        assert Superseded(v.registry, b.0, e.session) == Some(b.1);
        assert t.strands[b.1] == v.strands[b.1] + [S.Send(MOVED_NOTICE), S.Stop];
        assert t.strands[b.1][|v.strands[b.1]| + 1] == S.Stop;
      }
    }
  }

  lemma StepKeepsKeys(v: Server, e: Event)
    requires KnownSessions(v) && Enabled(v, e)
    ensures StrandsAfter(v, e).Keys == v.strands.Keys + {e.session}
    ensures Step(v, e).strands.Keys == Step(v, e).sessions.Keys
  {
  }

  lemma StepKeepsKnown(v: Server, e: Event)
    requires Inv(v) && Enabled(v, e)
    ensures KnownSessions(Step(v, e))
  {
    var t := Step(v, e);
    StepKeepsKeys(v, e);
    forall id | id in t.registry.clients && t.registry.clients[id].session.Some?
      ensures (id, t.registry.clients[id].session.value) in t.bound
    {
      CurrentSessionAfter(v, e, id);
    }
  }

  lemma StepKeepsInv(v: Server, e: Event)
    requires Inv(v) && Enabled(v, e)
    ensures Inv(Step(v, e))
  {
    var t := Step(v, e);
    SessionProgress(v, e);
    StepKeepsSound(v, e);
    StepKeepsKnown(v, e);
    forall b | b in t.bound
      ensures SessionOf(t.registry, b.0) == Some(b.1) || StoppedOrStopping(t, b.1)
    {
      BoundAfter(v, e, b);
    }
  }

  lemma {:induction false} RunKeepsInv(v: Server, events: seq<Event>)
    requires Inv(v) && Legal(v, events)
    ensures Inv(Run(v, events))
    decreases |events|
  {
    if events != [] {
      StepKeepsInv(v, events[0]);
      RunKeepsInv(Step(v, events[0]), events[1..]);
    }
  }

  lemma IdleInv()
    ensures Inv(IDLE)
  {
  }

  // ---------- What every run of the server guarantees ----------

  /**
   Reconnect safety: of all sessions ever bound to an id, every one but the current is disconnected or has a Stop
   waiting on its strand; once its strand has run dry it is disconnected.
   */
  lemma ReconnectSafety(events: seq<Event>)
    requires Legal(IDLE, events)
    ensures var v := Run(IDLE, events);
            forall b :: b in v.bound && SessionOf(v.registry, b.0) != Some(b.1) ==>
              && b.1 in v.sessions && b.1 in v.strands
              && (v.sessions[b.1].disconnected || S.Stop in v.strands[b.1])
              && (v.strands[b.1] == [] ==> v.sessions[b.1].disconnected)
  {
    IdleInv();
    RunKeepsInv(IDLE, events);
  }

  /**
   In every run the reverse index is right, and no session runs HandleDisconnect twice, or at all once it was stopped.
   */
  lemma DisconnectHandledOnce(events: seq<Event>)
    requires Legal(IDLE, events)
    ensures var v := Run(IDLE, events);
            && Sound(v.registry)
            && forall s :: s in v.sessions ==> v.sessions[s].callbacks <= (if v.sessions[s].stopped then 0 else 1)
  {
    IdleInv();
    RunKeepsInv(IDLE, events);
  }

  // ---------- What one session sees of a run ----------

  ghost function Own(v: Server, e: Event, s: SessionId): seq<S.Event>
    requires Enabled(v, e)
  {
    if e.session == s && !e.Post? then [OwnEvent(v, e)] else []
  }

  /** The handlers of session s in a run of the server, as events of the session protocol. */
  ghost function Project(v: Server, events: seq<Event>, s: SessionId): seq<S.Event>
    requires Legal(v, events)
    decreases |events|
  {
    if events == [] then [] else Own(v, events[0], s) + Project(Step(v, events[0]), events[1..], s)
  }

  /** Inside the server every session runs the session protocol on its own handlers. */
  lemma {:induction false} ProjectionIsRun(v: Server, events: seq<Event>, s: SessionId)
    requires Legal(v, events)
    ensures S.Legal(StateOf(v, s), Project(v, events, s))
    ensures S.Run(StateOf(v, s), Project(v, events, s)) == StateOf(Run(v, events), s)
    decreases |events|
  {
    if events != [] {
      var e, rest := events[0], Project(Step(v, events[0]), events[1..], s);
      ProjectionIsRun(Step(v, e), events[1..], s);
      if e.session == s && !e.Post? {
        assert ([OwnEvent(v, e)] + rest)[1..] == rest;
      } else {
        assert [] + rest == rest;
      }
    }
  }

  /** The message s is sent by an event: the reply to its frame, or a SendMsg whose turn has come on its strand. */
  ghost function Said(v: Server, e: Event, s: SessionId): seq<Bytes>
    requires Enabled(v, e)
  {
    match e
    case Frame(x, frame) => if x == s then [Reply(ClientIdOf(frame)).message] else []
    case RunStrand(x) => if x == s && v.strands[s][0].Send? then [v.strands[s][0].message] else []
    case _ => []
  }

  /** Everything the server sends to session s in a run, in order. */
  ghost function Spoken(v: Server, events: seq<Event>, s: SessionId): seq<Bytes>
    requires Legal(v, events)
    decreases |events|
  {
    if events == [] then [] else Said(v, events[0], s) + Spoken(Step(v, events[0]), events[1..], s)
  }

  lemma OwnMessages(v: Server, e: Event)
    requires Enabled(v, e) && !e.Post?
    ensures S.EventMessages(OwnEvent(v, e)) == Said(v, e, e.session)
  {
    match e {
      case Frame(_, frame) => S.OneCallMessages(Reply(ClientIdOf(frame)));
      case RunStrand(s) => S.OneCallMessages(v.strands[s][0]);
      case _ =>
    }
  }

  lemma {:induction false} SpokenIsSent(v: Server, events: seq<Event>, s: SessionId)
    requires Legal(v, events)
    ensures S.SentMessages(Project(v, events, s)) == Spoken(v, events, s)
    decreases |events|
  {
    if events != [] {
      var e, rest := events[0], Project(Step(v, events[0]), events[1..], s);
      SpokenIsSent(Step(v, e), events[1..], s);
      if e.session == s && !e.Post? {
        OwnMessages(v, e);
        assert ([OwnEvent(v, e)] + rest)[1..] == rest;
      } else {
        assert [] + rest == rest;
      }
    }
  }

  /** The calls an event puts on the strand of s: notice and Stop of a superseded session, or a posted SendMsg. */
  ghost function PutOn(v: Server, e: Event, s: SessionId): seq<S.Call>
    requires Enabled(v, e)
  {
    match e
    case Frame(x, frame) =>
      if ClientIdOf(frame) != 0 && Superseded(v.registry, ClientIdOf(frame), x) == Some(s) && s in v.strands then
        [S.Send(MOVED_NOTICE), S.Stop]
      else []
    case Post(x, message) => if x == s then [S.Send(message)] else []
    case _ => []
  }

  /** The calls made on session s among calls on any. */
  function CallsOn(calls: seq<(SessionId, S.Call)>, s: SessionId): seq<S.Call> {
    if calls == [] then []
    else (if calls[0].0 == s then [calls[0].1] else []) + CallsOn(calls[1..], s)
  }

  /** The calls of HandleMessage on one session: a farewell if it is superseded, the reply if it is the one greeting. */
  lemma GreetingCallsOn(r: Registry, id: ClientId, x: SessionId, s: SessionId)
    ensures CallsOn(GreetingCalls(r, id, x), s)
         == (if id != 0 && Superseded(r, id, x) == Some(s) then [S.Send(MOVED_NOTICE), S.Stop] else [])
            + (if s == x then [Reply(id)] else [])
  {
    var previous, reply := Superseded(r, id, x), [(x, Reply(id))];
    CallsOnCons((x, Reply(id)), [], s);
    assert reply == [(x, Reply(id))] + [];
    if id != 0 && previous.Some? {
      var stop := [(previous.value, S.Stop)] + reply;
      CallsOnCons((previous.value, S.Stop), reply, s);
      CallsOnCons((previous.value, S.Send(MOVED_NOTICE)), stop, s);
      assert GreetingCalls(r, id, x) == [(previous.value, S.Send(MOVED_NOTICE))] + stop;
    } else {
      assert GreetingCalls(r, id, x) == reply;
    }
  }

  /**
   The machine makes the calls the handler makes, on every session: what a frame puts on the strands, and the reply its
   own session makes at once, are the calls of HandleMessage, none more, each on its session and in its order.
   */
  lemma FramesMakeGreetingCalls(v: Server, x: SessionId, frame: Bytes, s: SessionId)
    requires Inv(v) && Enabled(v, Frame(x, frame))
    ensures PutOn(v, Frame(x, frame), s) + (if s == x then OwnEvent(v, Frame(x, frame)).reaction else [])
         == CallsOn(GreetingCalls(v.registry, ClientIdOf(frame), x), s)
  {
    var id := ClientIdOf(frame);
    GreetingCallsOn(v.registry, id, x, s);
    if Superseded(v.registry, id, x) == Some(s) {
      assert (id, s) in v.bound;
    }
  }

  lemma CallsOnCons(call: (SessionId, S.Call), rest: seq<(SessionId, S.Call)>, s: SessionId)
    ensures CallsOn([call] + rest, s) == (if call.0 == s then [call.1] else []) + CallsOn(rest, s)
  {
    assert ([call] + rest)[1..] == rest;
  }

  ghost function AllPutOn(v: Server, events: seq<Event>, s: SessionId): seq<S.Call>
    requires Legal(v, events)
    decreases |events|
  {
    if events == [] then [] else PutOn(v, events[0], s) + AllPutOn(Step(v, events[0]), events[1..], s)
  }

  /** The calls that ran on the strand of s. */
  ghost function AllRun(v: Server, events: seq<Event>, s: SessionId): seq<S.Call>
    requires Legal(v, events)
    decreases |events|
  {
    if events == [] then []
    else
      (if events[0] == RunStrand(s) then [v.strands[s][0]] else []) + AllRun(Step(v, events[0]), events[1..], s)
  }

  ghost function StrandOf(v: Server, s: SessionId): seq<S.Call> {
    if s in v.strands then v.strands[s] else []
  }

  lemma StrandStep(v: Server, e: Event, s: SessionId)
    requires Enabled(v, e)
    ensures StrandOf(v, s) + PutOn(v, e, s)
         == (if e == RunStrand(s) then [v.strands[s][0]] else []) + StrandOf(Step(v, e), s)
  {
  }

  lemma FifoChain<T>(a: seq<T>, put: seq<T>, ran: seq<T>, b: seq<T>, later: seq<T>, rest: seq<T>, c: seq<T>)
    requires a + put == ran + b && b + later == rest + c
    ensures a + (put + later) == ran + rest + c
  {
    calc {
      a + (put + later);
      a + put + later;
      ran + b + later;
      ran + (b + later);
      ran + (rest + c);
      ran + rest + c;
    }
  }

  /** A strand loses and reorders nothing: what is put on it is what ran there followed by what waits. */
  lemma {:induction false} StrandsAreFifo(v: Server, events: seq<Event>, s: SessionId)
    requires Legal(v, events)
    ensures StrandOf(v, s) + AllPutOn(v, events, s) == AllRun(v, events, s) + StrandOf(Run(v, events), s)
    decreases |events|
  {
    if events != [] {
      var e, t := events[0], Step(v, events[0]);
      StrandStep(v, e, s);
      StrandsAreFifo(t, events[1..], s);
      var ran := if e == RunStrand(s) then [v.strands[s][0]] else [];
      var later, rest := AllPutOn(t, events[1..], s), AllRun(t, events[1..], s);
      FifoChain(StrandOf(v, s), PutOn(v, e, s), ran, StrandOf(t, s), later, rest, StrandOf(Run(v, events), s));
    }
  }

  /**
   What the socket of s was given is, in order, a prefix of what the server sent to s; until disconnect, what completed
   followed by what is queued is all of it; and what was put on its strand is what ran there followed by what waits.
   */
  lemma ServerSessionsDeliverInOrder(events: seq<Event>, s: SessionId)
    requires Legal(IDLE, events) && s in Run(IDLE, events).sessions
    ensures var v, state := Run(IDLE, events), Run(IDLE, events).sessions[s];
            && state.completed <= state.started <= Spoken(IDLE, events, s)
            && (!state.disconnected ==> state.completed + state.queue == Spoken(IDLE, events, s))
            && AllPutOn(IDLE, events, s) == AllRun(IDLE, events, s) + StrandOf(v, s)
  {
    ProjectionIsRun(IDLE, events, s);
    SpokenIsSent(IDLE, events, s);
    S.InOrderDelivery(Project(IDLE, events, s));
    StrandsAreFifo(IDLE, events, s);
    assert StrandOf(IDLE, s) + AllPutOn(IDLE, events, s) == AllPutOn(IDLE, events, s);
  }

  lemma FramesNeverReport(v: Server, s: SessionId, frame: Bytes)
    requires Inv(v) && Enabled(v, Frame(s, frame))
    ensures !Reports(v, Frame(s, frame))
    ensures SessionAfter(v, Frame(s, frame)).callbacks == v.sessions[s].callbacks
    ensures SessionAfter(v, Frame(s, frame)).disconnected == v.sessions[s].disconnected
    ensures SessionAfter(v, Frame(s, frame)).stopped == v.sessions[s].stopped
  {
    var before := v.sessions[s];
    var call := Reply(ClientIdOf(frame));
    assert [call][..0] == [];
    assert S.AfterCalls(before.(pendingReads := before.pendingReads - 1), [call])
        == S.AfterCall(before.(pendingReads := before.pendingReads - 1), call);
  }

  /**
   A disconnect touches no client whose current session is another one: orders, subscription and registration of every
   such client are as before, however late the disconnect of a superseded session comes.
   */
  lemma LateDisconnectHarmless(v: Server, e: Event, id: ClientId)
    requires Inv(v) && Enabled(v, e) && Reports(v, e) && SessionOf(v.registry, id) != Some(e.session)
    ensures id in Step(v, e).registry.clients <==> id in v.registry.clients
    ensures id in v.registry.clients ==> Step(v, e).registry.clients[id] == v.registry.clients[id]
  {
    if e.Frame? {
      FramesNeverReport(v, e.session, e.frame);
    }
    DepartedSessions(v.registry, e.session, id);
  }

  /** A reconnect keeps the client's orders; a new client starts without any. Both end up subscribed. */
  lemma ReconnectKeepsOrders(v: Server, e: Event)
    requires Inv(v) && Enabled(v, e) && Greets(e)
    ensures var id := ClientIdOf(e.frame);
            var clients := Step(v, e).registry.clients;
            && id in clients
            && clients[id] == (if id in v.registry.clients then v.registry.clients[id] else NEWCOMER)
                              .(session := Some(e.session), subscribed := true)
            && forall other :: other != id ==>
                 && (other in clients <==> other in v.registry.clients)
                 && (other in clients ==> clients[other] == v.registry.clients[other])
  {
    FramesNeverReport(v, e.session, e.frame);
  }

  // ---------- With the get_session that throws ----------

  /** HandleMessage as implemented: get_session throws on an unknown id, before anything is registered. */
  ghost function GreetedAsCoded(r: Registry, id: ClientId, session: SessionId): Option<Registry> {
    if id == 0 then Some(r)
    else if id !in r.clients then None
    else Some(Greeted(r, id, session))
  }

  datatype Encounter = Hello(id: ClientId, session: SessionId) | Gone(session: SessionId)

  /** None once an exception has left the io thread. */
  ghost function EncountersAsCoded(r: Registry, encounters: seq<Encounter>): Option<Registry>
    decreases |encounters|
  {
    if encounters == [] then Some(r)
    else match encounters[0]
      case Hello(id, session) =>
        var after := GreetedAsCoded(r, id, session);
        if after == None then None else EncountersAsCoded(after.value, encounters[1..])
      case Gone(session) => EncountersAsCoded(Departed(r, session), encounters[1..])
  }

  /** The implementation does what the documented server does exactly on known ids and on frames that are no HELLO. */
  lemma AsCodedIffKnown(r: Registry, id: ClientId, session: SessionId)
    ensures GreetedAsCoded(r, id, session) == Some(Greeted(r, id, session)) <==> id == 0 || id in r.clients
  {
  }

  /**
   So on the implementation nobody ever registers: from the empty registry a run keeps it empty, or ends in the
   exception.
   */
  lemma {:induction false} AsCodedNobodyRegisters(encounters: seq<Encounter>)
    ensures EncountersAsCoded(EMPTY, encounters) == Some(EMPTY) || EncountersAsCoded(EMPTY, encounters) == None
    ensures EncountersAsCoded(EMPTY, encounters) == None <==>
              exists i :: 0 <= i < |encounters| && encounters[i].Hello? && encounters[i].id != 0
    decreases |encounters|
  {
    if encounters != [] {
      AsCodedNobodyRegisters(encounters[1..]);
      var rest := encounters[1..];
      assert forall i :: 0 < i < |encounters| ==> encounters[i] == rest[i - 1];
      assert forall i :: 0 <= i < |rest| ==> rest[i] == encounters[i + 1];
    }
  }
}
