/**
 Which clients of the server are left on a dead session. Sessions are owned by the registry alone, through the clients
 whose current session they are; a handler of a session nobody owns does nothing. The server machine keeps every
 accepted session alive, and this module says which of its steps a released session could not take.
 */
module ServerLiveness {
  import opened Common
  import opened HelloParser
  import opened Registries
  import opened TcpServers
  import S = SessionProtocol

  /** No registered client's session is disconnected, or has been told to stop. */
  ghost predicate AllLive(v: Server) {
    forall id :: id in v.registry.clients && v.registry.clients[id].session.Some? ==>
      && v.registry.clients[id].session.value in v.sessions
      && !StoppedOrStopping(v, v.registry.clients[id].session.value)
  }

  /** Some client's current session is s, so that the registry owns it. */
  ghost predicate Owned(r: Registry, s: SessionId) {
    exists id :: SessionOf(r, id) == Some(s)
  }

  // ---------- The steps that lose a client ----------

  /** A HELLO handled on a session that is disconnected, by an error or by Stop, or that has been told to stop. */
  ghost predicate GreetsFromTheDead(v: Server, e: Event) {
    Greets(e) && StoppedOrStopping(v, e.session)
  }

  /** A client other than the one the reverse index names has this session. */
  ghost predicate OwnedBesidesReverse(r: Registry, s: SessionId) {
    exists id :: SessionOf(r, id) == Some(s) && !(s in r.owner && r.owner[s] == id)
  }

  /**
   A session under several ids is lost to one of them: its disconnect is reported, which removes only the client of the
   reverse entry; or one of its clients moves to another session, which stops it for all.
   */
  ghost predicate Abandons(v: Server, e: Event)
    requires Enabled(v, e)
  {
    || (Reports(v, e) && OwnedBesidesReverse(v.registry, e.session))
    || (Greets(e)
        && var id := ClientIdOf(e.frame);
           var previous := Superseded(v.registry, id, e.session);
           previous.Some? && BoundElsewhere(v.registry, id, previous))
  }

  lemma AfterReport(v: Server, e: Event)
    requires Inv(v) && Enabled(v, e) && Reports(v, e)
    ensures Step(v, e).registry == Departed(v.registry, e.session)
  {
    if e.Frame? {
      FramesNeverReport(v, e.session, e.frame);
    }
  }

  /** A reported session stays owned exactly if a second client has it. */
  lemma ReportReleasesUnlessShared(v: Server, e: Event)
    requires Inv(v) && Enabled(v, e) && Reports(v, e)
    ensures Owned(Step(v, e).registry, e.session) <==> OwnedBesidesReverse(v.registry, e.session)
  {
    AfterReport(v, e);
    DepartureReleasesUnlessShared(v.registry, e.session);
  }

  lemma DepartureReleasesUnlessShared(r: Registry, s: SessionId)
    requires Sound(r)
    ensures Owned(Departed(r, s), s) <==> OwnedBesidesReverse(r, s)
  {
    DepartedSessions(r, s, 0);
    if id :| SessionOf(r, id) == Some(s) && !(s in r.owner && r.owner[s] == id) {
      assert SessionOf(Departed(r, s), id) == Some(s);
    }
    if id :| SessionOf(Departed(r, s), id) == Some(s) {
      assert SessionOf(r, id) == Some(s);
    }
  }

  /** A superseded session stays owned exactly if a second client has it. */
  lemma SupersededIsReleasedUnlessShared(v: Server, e: Event, s: SessionId)
    requires Inv(v) && Enabled(v, e) && Greets(e)
    requires Superseded(v.registry, ClientIdOf(e.frame), e.session) == Some(s)
    ensures Owned(Step(v, e).registry, s) <==> BoundElsewhere(v.registry, ClientIdOf(e.frame), Some(s))
  {
    FramesNeverReport(v, e.session, e.frame);
    var r, id := v.registry, ClientIdOf(e.frame);
    var t := Greeted(r, id, e.session);
    if other :| other in r.clients && other != id && r.clients[other].session == Some(s) {
      GreetedSessions(r, id, e.session, other);
      assert SessionOf(t, other) == Some(s);
    }
    if other :| SessionOf(t, other) == Some(s) {
      GreetedSessions(r, id, e.session, other);
      assert other in r.clients && other != id;
    }
  }

  /** A session starts stopping only by reporting its disconnect or by being superseded. */
  lemma HowStoppingStarts(v: Server, e: Event, s: SessionId)
    requires Inv(v) && Enabled(v, e) && !StoppedOrStopping(v, s) && StoppedOrStopping(Step(v, e), s)
    ensures (s == e.session && Reports(v, e))
         || (Greets(e) && Superseded(v.registry, ClientIdOf(e.frame), e.session) == Some(s))
  {
    if SessionAfter(v, e).disconnected && s == e.session {
      HowDisconnectStarts(v, e);
    }
  }

  lemma HowDisconnectStarts(v: Server, e: Event)
    requires Inv(v) && Enabled(v, e) && !StoppedOrStopping(v, e.session) && SessionAfter(v, e).disconnected
    ensures Reports(v, e)
  {
    SessionProgress(v, e);
    match e {
      case Accept(s) =>
      case RunStrand(s) =>
        assert v.strands[s][0] in v.strands[s];
        assert S.Inv(v.sessions[s]);
      case Frame(s, frame) => FramesNeverReport(v, s, frame);
      case ReadFailed(s) =>
      case WriteFinished(s, index, error) =>
      case Post(s, message) =>
    }
  }

  lemma CurrentWasLive(v: Server, e: Event, id: ClientId, s: SessionId)
    requires Inv(v) && AllLive(v) && Enabled(v, e) && !GreetsFromTheDead(v, e)
    requires SessionOf(Step(v, e).registry, id) == Some(s)
    ensures !StoppedOrStopping(v, s)
  {
    CurrentSessionAfter(v, e, id);
  }

  lemma CurrentIsLive(v: Server, e: Event, id: ClientId, s: SessionId)
    requires Inv(v) && AllLive(v) && Enabled(v, e) && !GreetsFromTheDead(v, e) && !Abandons(v, e)
    requires SessionOf(Step(v, e).registry, id) == Some(s)
    ensures !StoppedOrStopping(Step(v, e), s)
  {
    CurrentWasLive(v, e, id, s);
    if StoppedOrStopping(Step(v, e), s) {
      HowStoppingStarts(v, e, s);
      if s == e.session && Reports(v, e) {
        ReportReleasesUnlessShared(v, e);
      } else {
        SupersededIsReleasedUnlessShared(v, e, s);
      }
    }
  }

  lemma OwnedAndStopping(v: Server, s: SessionId)
    requires Owned(v.registry, s) && StoppedOrStopping(v, s)
    ensures !AllLive(v)
  {
    var id :| SessionOf(v.registry, id) == Some(s);
    assert id in v.registry.clients && v.registry.clients[id].session == Some(s);
  }

  lemma AbandonsLosesClient(v: Server, e: Event)
    requires Inv(v) && Enabled(v, e) && Abandons(v, e)
    ensures !AllLive(Step(v, e))
  {
    var t := Step(v, e);
    if Reports(v, e) && OwnedBesidesReverse(v.registry, e.session) {
      ReportReleasesUnlessShared(v, e);
      SessionProgress(v, e);
      OwnedAndStopping(t, e.session);
    } else {
      var s := Superseded(v.registry, ClientIdOf(e.frame), e.session).value;
      SupersededIsReleasedUnlessShared(v, e, s);
      assert (ClientIdOf(e.frame), s) in v.bound;
      assert t.strands[s] == v.strands[s] + [S.Send(MOVED_NOTICE), S.Stop];
      assert t.strands[s][|v.strands[s]| + 1] == S.Stop;
      OwnedAndStopping(t, s);
    }
  }

  lemma GreetingFromTheDeadLosesClient(v: Server, e: Event)
    requires Inv(v) && Enabled(v, e) && GreetsFromTheDead(v, e)
    ensures !AllLive(Step(v, e))
  {
    ReconnectKeepsOrders(v, e);
    StoppingIsFinal(v, e, e.session);
    assert SessionOf(Step(v, e).registry, ClientIdOf(e.frame)) == Some(e.session);
    OwnedAndStopping(Step(v, e), e.session);
  }

  /**
   Exactly two kinds of steps leave a client on a session that is disconnected or stopping: a HELLO handled on such a
   session, and one that loses a session which several clients have.
   */
  lemma ClientsStayLiveIff(v: Server, e: Event)
    requires Inv(v) && AllLive(v) && Enabled(v, e)
    ensures AllLive(Step(v, e)) <==> !GreetsFromTheDead(v, e) && !Abandons(v, e)
  {
    if GreetsFromTheDead(v, e) {
      GreetingFromTheDeadLosesClient(v, e);
    } else if Abandons(v, e) {
      AbandonsLosesClient(v, e);
    } else {
      var t := Step(v, e);
      StepKeepsKnown(v, e);
      forall id | id in t.registry.clients && t.registry.clients[id].session.Some?
        ensures t.registry.clients[id].session.value in t.sessions
        ensures !StoppedOrStopping(t, t.registry.clients[id].session.value)
      {
        assert (id, t.registry.clients[id].session.value) in t.bound;
        CurrentIsLive(v, e, id, t.registry.clients[id].session.value);
      }
    }
  }

  /** Every client is live at every moment of the run. */
  ghost predicate AlwaysLive(v: Server, events: seq<Event>)
    requires Legal(v, events)
    decreases |events|
  {
    AllLive(v) && (events == [] || AlwaysLive(Step(v, events[0]), events[1..]))
  }

  /** No step of the run loses a client. */
  ghost predicate LosesNobody(v: Server, events: seq<Event>)
    requires Legal(v, events)
    decreases |events|
  {
    events == []
    || (!GreetsFromTheDead(v, events[0]) && !Abandons(v, events[0]) && LosesNobody(Step(v, events[0]), events[1..]))
  }

  /** Over a whole run, every client always has a live session exactly if no step is of the two kinds. */
  lemma {:induction false} AlwaysLiveIff(v: Server, events: seq<Event>)
    requires Inv(v) && AllLive(v) && Legal(v, events)
    ensures AlwaysLive(v, events) <==> LosesNobody(v, events)
    decreases |events|
  {
    if events != [] {
      var t := Step(v, events[0]);
      StepKeepsInv(v, events[0]);
      ClientsStayLiveIff(v, events[0]);
      if AllLive(t) {
        AlwaysLiveIff(t, events[1..]);
      } else {
        assert !AlwaysLive(t, events[1..]);
      }
    }
  }

  // ---------- Sessions under one id ----------

  ghost predicate BindsTwice(v: Server, e: Event) {
    Greets(e) && BoundElsewhere(v.registry, ClientIdOf(e.frame), Some(e.session))
  }

  /** While the maps agree no session has two clients, and nobody can be abandoned. */
  lemma AgreeingMapsAbandonNobody(v: Server, e: Event)
    requires Inv(v) && Complete(v.registry) && Enabled(v, e)
    ensures !Abandons(v, e)
  {
    MutuallyInverse(v.registry);
  }

  lemma CompleteUnlessBoundTwice(v: Server, e: Event)
    requires Inv(v) && Complete(v.registry) && Enabled(v, e) && !BindsTwice(v, e)
    ensures Complete(Step(v, e).registry)
  {
    if Greets(e) {
      var id := ClientIdOf(e.frame);
      FramesNeverReport(v, e.session, e.frame);
      CompleteIffNotBoundTwice(v.registry, AddSession(id, Some(e.session)));
      var added := Apply(v.registry, AddSession(id, Some(e.session)));
      ApplyKeepsSound(v.registry, AddSession(id, Some(e.session)));
      CompleteIffNotBoundTwice(added, Subscribe(id));
    } else {
      if e.Frame? {
        FramesNeverReport(v, e.session, e.frame);
      }
      if e.session in v.registry.owner {
        CompleteIffNotBoundTwice(v.registry, RemoveSession(v.registry.owner[e.session]));
      }
    }
  }

  /** No HELLO of the run binds a session under a second id, or comes from a disconnected or stopping session. */
  ghost predicate Disciplined(v: Server, events: seq<Event>)
    requires Legal(v, events)
    decreases |events|
  {
    events == []
    || (!BindsTwice(v, events[0]) && !GreetsFromTheDead(v, events[0]) && Disciplined(Step(v, events[0]), events[1..]))
  }

  /**
   Disciplined runs leave no client behind: every registered client is found by its session, which is neither
   disconnected nor stopping.
   */
  lemma {:induction false} DisciplinedRunsLeaveNoClientBehind(v: Server, events: seq<Event>)
    requires Inv(v) && AllLive(v) && Complete(v.registry) && Legal(v, events) && Disciplined(v, events)
    ensures AllLive(Run(v, events)) && Complete(Run(v, events).registry)
    decreases |events|
  {
    if events != [] {
      StepKeepsInv(v, events[0]);
      AgreeingMapsAbandonNobody(v, events[0]);
      ClientsStayLiveIff(v, events[0]);
      CompleteUnlessBoundTwice(v, events[0]);
      DisciplinedRunsLeaveNoClientBehind(Step(v, events[0]), events[1..]);
    }
  }

  // ---------- What ownership rules out ----------

  /** On a session some client has, no HELLO comes from the dead; only a shared session can still lose a client. */
  lemma OwnedGreetingsOnlyAbandon(v: Server, e: Event)
    requires Inv(v) && AllLive(v) && Enabled(v, e) && Owned(v.registry, e.session)
    ensures AllLive(Step(v, e)) <==> !Abandons(v, e)
  {
    ClientsStayLiveIff(v, e);
    if GreetsFromTheDead(v, e) {
      OwnedAndStopping(v, e.session);
    }
  }

  /**
   Keeping a released session alive adds nothing but its HELLOs: whatever else happens on it, the registry, the other
   sessions and the other strands stay as they are.
   */
  lemma ReleasedSessionsOnlyGreet(v: Server, e: Event)
    requires Inv(v) && Enabled(v, e) && !Owned(v.registry, e.session) && !Greets(e)
    ensures Step(v, e).registry == v.registry
    ensures Step(v, e).sessions - {e.session} == v.sessions - {e.session}
    ensures Step(v, e).strands - {e.session} == v.strands - {e.session}
  {
    NobodyDeparts(v.registry, e.session);
    assert v.sessions[e.session := SessionAfter(v, e)] - {e.session} == v.sessions - {e.session};
  }

  lemma NobodyDeparts(r: Registry, s: SessionId)
    requires !Owned(r, s)
    ensures Departed(r, s) == r
  {
  }

  /** Every handler that runs belongs to a session some client has. */
  ghost predicate OwnedThroughout(v: Server, events: seq<Event>)
    requires Legal(v, events)
    decreases |events|
  {
    events == []
    || ((events[0].Accept? || Owned(v.registry, events[0].session))
        && OwnedThroughout(Step(v, events[0]), events[1..]))
  }

  /**
   As coded, the acceptor lets go of a session as soon as it has started it, so a session has no owner before its first
   HELLO: then no handler of any session ever runs, and the server does nothing but accept.
   */
  lemma {:induction false} AsCodedOnlyAccepts(v: Server, events: seq<Event>)
    requires v.registry == EMPTY && Legal(v, events) && OwnedThroughout(v, events)
    ensures forall i :: 0 <= i < |events| ==> events[i].Accept?
    ensures Run(v, events).registry == EMPTY
    decreases |events|
  {
    if events != [] {
      AcceptKeepsRegistry(v, events[0]);
      AsCodedOnlyAccepts(Step(v, events[0]), events[1..]);
      forall i | 0 <= i < |events|
        ensures events[i].Accept?
      {
        assert i > 0 ==> events[i] == events[1..][i - 1];
      }
    }
  }

  lemma AcceptKeepsRegistry(v: Server, e: Event)
    requires Enabled(v, e) && e.Accept?
    ensures Step(v, e).registry == v.registry
  {
  }

  // ---------- Losing a client ----------

  ghost predicate Connected(v: Server, s: SessionId) {
    s in v.sessions && !v.sessions[s].disconnected && v.sessions[s].reading
  }

  /** A disconnect reported while a second client has the session leaves that client on it. */
  lemma ReportAbandonsSecondClient(v: Server, e: Event, id: ClientId)
    requires Inv(v) && Enabled(v, e) && Reports(v, e) && SessionOf(v.registry, id) == Some(e.session)
    requires !(e.session in v.registry.owner && v.registry.owner[e.session] == id)
    ensures SessionOf(Step(v, e).registry, id) == Some(e.session) && SessionAfter(v, e).disconnected
  {
    AfterReport(v, e);
    DepartedSessions(v.registry, e.session, id);
    SessionProgress(v, e);
  }

  /** What a frame does to its own session, connected or not, and to the registry. */
  lemma FrameTaken(v: Server, s: SessionId, frame: Bytes)
    requires Inv(v) && Enabled(v, Frame(s, frame))
    ensures var t := Step(v, Frame(s, frame));
            && Inv(t) && t.registry == Greeted(v.registry, ClientIdOf(frame), s)
            && s in t.sessions
            && t.sessions[s].disconnected == v.sessions[s].disconnected
            && t.sessions[s].stopped == v.sessions[s].stopped
            && t.sessions[s].callbacks == v.sessions[s].callbacks
            && t.sessions[s].reading == v.sessions[s].reading
  {
    StepKeepsInv(v, Frame(s, frame));
    FramesNeverReport(v, s, frame);
    StillReading(v.sessions[s], ClientIdOf(frame));
  }

  lemma StillReading(s: S.State, id: ClientId)
    requires s.pendingReads > 0
    ensures S.AfterReadDone(s, false, [Reply(id)]).reading == s.reading
  {
    S.OneCallRuns(s.(pendingReads := s.pendingReads - 1), Reply(id));
  }

  lemma ConnectedReads(v: Server, s: SessionId, frame: Bytes)
    requires Inv(v) && Connected(v, s)
    ensures Enabled(v, Frame(s, frame)) && Enabled(v, ReadFailed(s)) && Reports(v, ReadFailed(s))
  {
    assert S.Inv(v.sessions[s]);
  }

  /** A session says HELLO under two ids and disconnects: only the second client goes, the first one stays on it. */
  lemma SecondHelloThenDisconnect(v: Server, s: SessionId, first: Bytes, second: Bytes)
    requires Inv(v) && Connected(v, s)
    requires ClientIdOf(first) != 0 && ClientIdOf(second) != 0 && ClientIdOf(first) != ClientIdOf(second)
    ensures var e1, e2, e3 := Frame(s, first), Frame(s, second), ReadFailed(s);
            && Enabled(v, e1) && Enabled(Step(v, e1), e2) && Enabled(Step(Step(v, e1), e2), e3)
            && Abandons(Step(Step(v, e1), e2), e3)
            && var t := Step(Step(Step(v, e1), e2), e3);
            && SessionOf(t.registry, ClientIdOf(first)) == Some(s)
            && SessionOf(t.registry, ClientIdOf(second)) == None
            && s in t.sessions && t.sessions[s].disconnected
  {
    var id1, id2 := ClientIdOf(first), ClientIdOf(second);
    ConnectedReads(v, s, first);
    FrameTaken(v, s, first);
    var v1 := Step(v, Frame(s, first));
    ConnectedReads(v1, s, second);
    FrameTaken(v1, s, second);
    var v2 := Step(v1, Frame(s, second));
    ConnectedReads(v2, s, []);
    BoundTwice(v.registry, id1, id2, s);
    ReportAbandonsSecondClient(v2, ReadFailed(s), id1);
    AfterReport(v2, ReadFailed(s));
  }

  lemma BoundTwice(r: Registry, id1: ClientId, id2: ClientId, s: SessionId)
    requires id1 != 0 && id2 != 0 && id1 != id2
    ensures var t := Greeted(Greeted(r, id1, s), id2, s);
            && SessionOf(t, id1) == Some(s) && s in t.owner && t.owner[s] == id2
            && SessionOf(Departed(t, s), id2) == None
  {
    GreetedSessions(r, id1, s, id1);
    GreetedSessions(Greeted(r, id1, s), id2, s, id1);
    GreetedSessions(Greeted(r, id1, s), id2, s, id2);
  }

  function HelloFrame(n: nat): Bytes {
    PREFIX + Decimal(n) + [LINE_FEED]
  }

  /** From a fresh server: one connection, HELLO 1, HELLO 2, end of stream. Client 1 is left on the dead session. */
  lemma AbandonedClient()
    ensures var events := [Accept(0), Frame(0, HelloFrame(1)), Frame(0, HelloFrame(2)), ReadFailed(0)];
            && Legal(IDLE, events)
            && var t := Run(IDLE, events);
            && SessionOf(t.registry, 1) == Some(0) && SessionOf(t.registry, 2) == None
            && 0 in t.sessions && t.sessions[0].disconnected
  {
    var e0, e1, e2, e3 := Accept(0), Frame(0, HelloFrame(1)), Frame(0, HelloFrame(2)), ReadFailed(0);
    AcceptConnects(0);
    HelloFrameIsHello(1);
    HelloFrameIsHello(2);
    SecondHelloThenDisconnect(Step(IDLE, e0), 0, e1.frame, e2.frame);
    FourSteps(IDLE, e0, e1, e2, e3);
  }

  lemma FourSteps(v: Server, e0: Event, e1: Event, e2: Event, e3: Event)
    requires Enabled(v, e0) && Enabled(Step(v, e0), e1) && Enabled(Step(Step(v, e0), e1), e2)
    requires Enabled(Step(Step(Step(v, e0), e1), e2), e3)
    ensures Legal(v, [e0, e1, e2, e3])
    ensures Run(v, [e0, e1, e2, e3]) == Step(Step(Step(Step(v, e0), e1), e2), e3)
  {
    var v2 := Step(Step(v, e0), e1);
    RunOne(Step(v2, e2), e3, [], Step(Step(v2, e2), e3));
    RunOne(v2, e2, [e3], Step(Step(v2, e2), e3));
    RunOne(Step(v, e0), e1, [e2] + [e3], Step(Step(v2, e2), e3));
    RunOne(v, e0, [e1] + ([e2] + [e3]), Step(Step(v2, e2), e3));
    assert [e0] + ([e1] + ([e2] + [e3])) == [e0, e1, e2, e3];
  }

  lemma AcceptConnects(s: SessionId)
    ensures Enabled(IDLE, Accept(s)) && Inv(Step(IDLE, Accept(s))) && Connected(Step(IDLE, Accept(s)), s)
  {
    StepKeepsInv(IDLE, Accept(s));
  }

  lemma RunOne(v: Server, e: Event, rest: seq<Event>, t: Server)
    requires Enabled(v, e) && Legal(Step(v, e), rest) && Run(Step(v, e), rest) == t
    ensures Legal(v, [e] + rest) && Run(v, [e] + rest) == t
  {
    assert ([e] + rest)[1..] == rest;
  }

  lemma HelloFrameIsHello(n: nat)
    requires n < WORD_MODULUS
    ensures ClientIdOf(HelloFrame(n)) == n
  {
    HelloRoundTrip(n, [], [LINE_FEED]);
    assert [] + PREFIX + Decimal(n) + [LINE_FEED] == HelloFrame(n);
  }

  lemma WriteErrorTaken(v: Server, s: SessionId)
    requires Inv(v) && Connected(v, s) && v.sessions[s].pendingWrites != []
    ensures var e := WriteFinished(s, 0, true);
            && Enabled(v, e) && Reports(v, e) && Inv(Step(v, e))
            && s in Step(v, e).sessions
            && var t := Step(v, e).sessions[s]; t.disconnected && t.pendingReads == 1 && t.callbacks == 1
  {
    assert S.Inv(v.sessions[s]);
    StepKeepsInv(v, WriteFinished(s, 0, true));
  }

  /**
   After a write error, a session that a second client has is still owned, and a HELLO frame already read registers one
   more client on it.
   */
  lemma WriteErrorThenHello(v: Server, s: SessionId, frame: Bytes, keeper: ClientId)
    requires Inv(v) && Connected(v, s) && v.sessions[s].pendingWrites != [] && ClientIdOf(frame) != 0
    requires SessionOf(v.registry, keeper) == Some(s)
    requires !(s in v.registry.owner && v.registry.owner[s] == keeper)
    ensures var e1, e2 := WriteFinished(s, 0, true), Frame(s, frame);
            && Enabled(v, e1) && Enabled(Step(v, e1), e2)
            && SessionOf(Step(v, e1).registry, keeper) == Some(s)
            && var t := Step(Step(v, e1), e2);
            && SessionOf(t.registry, ClientIdOf(frame)) == Some(s)
            && SessionOf(t.registry, keeper) == Some(s)
            && s in t.sessions && t.sessions[s].disconnected && t.sessions[s].callbacks == 1
  {
    var e1 := WriteFinished(s, 0, true);
    WriteErrorTaken(v, s);
    ReportAbandonsSecondClient(v, e1, keeper);
    FrameTaken(Step(v, e1), s, frame);
    GreetedSessions(Step(v, e1).registry, ClientIdOf(frame), s, ClientIdOf(frame));
    GreetedSessions(Step(v, e1).registry, ClientIdOf(frame), s, keeper);
  }

  lemma StopTaken(v: Server, s: SessionId)
    requires Inv(v) && Connected(v, s) && v.strands[s] != [] && v.strands[s][0] == S.Stop
    ensures var e := RunStrand(s);
            && Enabled(v, e) && !Reports(v, e) && Inv(Step(v, e))
            && s in Step(v, e).sessions
            && var t := Step(v, e).sessions[s]; t.disconnected && t.stopped && t.pendingReads == 1 && t.callbacks == 0
  {
    assert S.Inv(v.sessions[s]);
    StepKeepsInv(v, RunStrand(s));
  }

  /** So does a HELLO frame already read when a Stop takes effect on a session that some client still has. */
  lemma StopThenHello(v: Server, s: SessionId, frame: Bytes, keeper: ClientId)
    requires Inv(v) && Connected(v, s) && ClientIdOf(frame) != 0
    requires v.strands[s] != [] && v.strands[s][0] == S.Stop
    requires SessionOf(v.registry, keeper) == Some(s)
    ensures var e1, e2 := RunStrand(s), Frame(s, frame);
            && Enabled(v, e1) && Enabled(Step(v, e1), e2)
            && SessionOf(Step(v, e1).registry, keeper) == Some(s)
            && var t := Step(Step(v, e1), e2);
            && SessionOf(t.registry, ClientIdOf(frame)) == Some(s)
            && SessionOf(t.registry, keeper) == Some(s)
            && s in t.sessions && t.sessions[s].disconnected && t.sessions[s].stopped && t.sessions[s].callbacks == 0
  {
    var e1 := RunStrand(s);
    StopTaken(v, s);
    FrameTaken(Step(v, e1), s, frame);
    GreetedSessions(Step(v, e1).registry, ClientIdOf(frame), s, ClientIdOf(frame));
    GreetedSessions(Step(v, e1).registry, ClientIdOf(frame), s, keeper);
  }

  ghost predicate GreetsAs(e: Event, id: ClientId) {
    Greets(e) && ClientIdOf(e.frame) == id
  }

  /** A client registered to a disconnected session stays so until the next HELLO for its id. */
  lemma {:induction false} DeadClientStays(v: Server, events: seq<Event>, id: ClientId, s: SessionId)
    requires Inv(v) && SessionOf(v.registry, id) == Some(s) && s in v.sessions && v.sessions[s].disconnected
    requires Legal(v, events) && forall i :: 0 <= i < |events| ==> !GreetsAs(events[i], id)
    ensures SessionOf(Run(v, events).registry, id) == Some(s)
    decreases |events|
  {
    if events != [] {
      var e := events[0];
      assert !GreetsAs(e, id);
      StepKeepsInv(v, e);
      SessionProgress(v, e);
      assert S.Inv(v.sessions[s]);
      KeepsDeadClient(v, e, id, s);
      forall i | 0 <= i < |events[1..]|
        ensures !GreetsAs(events[1..][i], id)
      {
        assert events[1..][i] == events[i + 1];
      }
      DeadClientStays(Step(v, e), events[1..], id, s);
    }
  }

  lemma KeepsDeadClient(v: Server, e: Event, id: ClientId, s: SessionId)
    requires Inv(v) && SessionOf(v.registry, id) == Some(s) && s in v.sessions && v.sessions[s].disconnected
    requires Enabled(v, e) && !GreetsAs(e, id)
    ensures SessionOf(Step(v, e).registry, id) == Some(s)
    ensures s in Step(v, e).sessions && Step(v, e).sessions[s].disconnected
  {
    SessionProgress(v, e);
    var greeted := if e.Frame? then Greeted(v.registry, ClientIdOf(e.frame), e.session) else v.registry;
    if e.Frame? {
      GreetedSessions(v.registry, ClientIdOf(e.frame), e.session, id);
      FramesNeverReport(v, e.session, e.frame);
    } else if e.session == s {
      DisconnectedNeverReports(v, e);
    } else {
      DepartedSessions(greeted, e.session, id);
    }
  }

  lemma DisconnectedNeverReports(v: Server, e: Event)
    requires Inv(v) && Enabled(v, e) && e.session in v.sessions && v.sessions[e.session].disconnected
    ensures !Reports(v, e)
  {
    match e {
      case Accept(s) =>
      case RunStrand(s) =>
      case Frame(s, frame) => FramesNeverReport(v, s, frame);
      case ReadFailed(s) =>
      case WriteFinished(s, index, error) =>
      case Post(s, message) =>
    }
  }
}
