/**
 One TCP session: the strand-serialised write queue and the disconnect protocol.

 The strand makes every handler atomic, so a session is a state machine whose events are handlers.
 `State` also records what the handlers hand to the socket (`pendingWrites`, `pendingReads`) and histories of messages.
 Nothing in `State` bounds the number of outstanding operations: that is a theorem.
 */
module SessionProtocol {
  import opened Common

  datatype State = State(
    queue: seq<Bytes>,          // messages_queue_
    writeInProgress: bool,      // write_in_progress_
    disconnected: bool,         // disconnected_
    open: bool,                 // socket_->is_open()
    reading: bool,              // Start() was dispatched
    pendingReads: nat,                 // outstanding async_read_until operations
    pendingWrites: seq<Bytes>,         // outstanding async_write operations, oldest first
    accepted: seq<Bytes>,       // messages SendMsg appended to the queue
    started: seq<Bytes>,        // messages handed to async_write
    completed: seq<Bytes>,      // messages whose async_write succeeded
    failed: seq<Bytes>,         // messages whose async_write failed
    stopped: bool,              // a Stop took effect
    callbacks: nat              // calls of on_disconnect_
  )

  const INITIAL := State([], false, false, true, false, 0, [], [], [], [], [], false, 0)

  datatype Call = Send(message: Bytes) | Stop

  /** `reaction` lists the calls that `on_data_` makes on this very session: inside its own strand they run at once. */
  datatype Event =
    | Start
    | Dispatched(call: Call)
    | ReadDone(readError: bool, reaction: seq<Call>)
    | WriteDone(index: nat, writeError: bool)

  // ---------- Specification of the handlers ----------

  function Notified(s: State): State {
    if s.disconnected then s
    else s.(disconnected := true, writeInProgress := false, queue := [], callbacks := s.callbacks + 1)
  }

  function AfterWrite(s: State): State {
    if !s.open then Notified(s.(writeInProgress := false))
    else if s.queue == [] then s.(writeInProgress := false)
    else s.(pendingWrites := s.pendingWrites + [s.queue[0]], started := s.started + [s.queue[0]])
  }

  function AfterSend(s: State, message: Bytes): State {
    if s.disconnected || !s.open then s
    else
      var t := s.(queue := s.queue + [message], accepted := s.accepted + [message]);
      if t.writeInProgress then t else AfterWrite(t.(writeInProgress := true))
  }

  function AfterStop(s: State): State {
    if s.disconnected then s else s.(disconnected := true, open := false, stopped := true)
  }

  function AfterCall(s: State, call: Call): State {
    match call
    case Send(message) => AfterSend(s, message)
    case Stop => AfterStop(s)
  }

  function AfterCalls(s: State, calls: seq<Call>): State
    decreases |calls|
  {
    if calls == [] then s else AfterCall(AfterCalls(s, calls[..|calls| - 1]), calls[|calls| - 1])
  }

  function AfterRead(s: State): State {
    if !s.open then Notified(s) else s.(pendingReads := s.pendingReads + 1)
  }

  function AfterReadDone(s: State, error: bool, reaction: seq<Call>): State
    requires s.pendingReads > 0
  {
    var t := s.(pendingReads := s.pendingReads - 1);
    if error then Notified(t) else AfterRead(AfterCalls(t, reaction))
  }

  function WriteRetired(s: State, index: nat, error: bool): State
    requires index < |s.pendingWrites|
  {
    var t := s.(pendingWrites := s.pendingWrites[..index] + s.pendingWrites[index + 1..]);
    if error then t.(failed := s.failed + [s.pendingWrites[index]])
    else t.(completed := s.completed + [s.pendingWrites[index]])
  }

  function AfterWriteDone(s: State, index: nat, error: bool): State
    requires index < |s.pendingWrites|
  {
    var t := WriteRetired(s, index, error);
    if error then Notified(t.(writeInProgress := false))
    else
      var u := if t.queue == [] then t else t.(queue := t.queue[1..]);
      if u.queue == [] then u.(writeInProgress := false) else AfterWrite(u)
  }

  // ---------- Runs ----------

  /** The acceptor starts a session once; an operation completes only if it is outstanding. */
  predicate Enabled(s: State, e: Event) {
    match e
    case Start => !s.reading
    case Dispatched(_) => true
    case ReadDone(_, _) => s.pendingReads > 0
    case WriteDone(index, _) => index < |s.pendingWrites|
  }

  function Step(s: State, e: Event): State
    requires Enabled(s, e)
  {
    match e
    case Start => AfterRead(s.(reading := true))
    case Dispatched(call) => AfterCall(s, call)
    case ReadDone(error, reaction) => AfterReadDone(s, error, reaction)
    case WriteDone(index, error) => AfterWriteDone(s, index, error)
  }

  predicate Legal(s: State, events: seq<Event>)
    decreases |events|
  {
    events == [] || (Enabled(s, events[0]) && Legal(Step(s, events[0]), events[1..]))
  }

  function Run(s: State, events: seq<Event>): State
    requires Legal(s, events)
    decreases |events|
  {
    if events == [] then s else Run(Step(s, events[0]), events[1..])
  }

  lemma {:induction false} RunSnoc(s: State, events: seq<Event>, e: Event)
    requires Legal(s, events) && Enabled(Run(s, events), e)
    ensures Legal(s, events + [e]) && Run(s, events + [e]) == Step(Run(s, events), e)
    decreases |events|
  {
    if events == [] {
      assert [] + [e] == [e] && [e][1..] == [];
    } else {
      RunSnoc(Step(s, events[0]), events[1..], e);
      assert (events + [e])[1..] == events[1..] + [e];
    }
  }

  // ---------- The inductive invariant ----------

  ghost predicate Inv(s: State) {
    && (!s.disconnected ==>
          && s.open
          && (s.writeInProgress <==> s.queue != [])
          && s.failed == []
          && s.pendingWrites == (if s.queue == [] then [] else [s.queue[0]]))
    && (s.disconnected ==> !s.open || s.queue == [])
    && |s.pendingWrites| + |s.failed| <= 1
    && s.started == s.completed + s.failed + s.pendingWrites
    && s.started <= s.accepted
    && (s.stopped <==> !s.open)
    && (s.stopped ==> s.disconnected)
    && s.callbacks == (if s.disconnected && !s.stopped then 1 else 0)
    && (!s.disconnected || s.stopped ==> s.accepted == s.completed + s.queue)
    && (s.stopped && s.pendingWrites != [] ==> s.queue != [] && s.pendingWrites == [s.queue[0]])
    && s.pendingReads <= (if s.reading then 1 else 0)
    && (s.reading && !s.disconnected ==> s.pendingReads == 1)
  }

  lemma SendKeepsInv(s: State, message: Bytes)
    requires Inv(s)
    ensures Inv(AfterSend(s, message))
  {
    if !s.disconnected {
      var t := AfterSend(s, message);
      assert t.accepted == t.completed + t.queue;
      if s.queue == [] {
        assert t.started == s.completed + [message];
      }
    }
  }

  /** A read handler between retiring its operation and re-arming: the read count is one short. */
  ghost predicate InvDuringRead(s: State) {
    && s.reading
    && s.pendingReads == 0
    && Inv(s.(pendingReads := 1))
  }

  lemma {:induction false} CallsKeepInv(s: State, calls: seq<Call>)
    requires InvDuringRead(s)
    ensures InvDuringRead(AfterCalls(s, calls))
    decreases |calls|
  {
    if calls != [] {
      var front, last := calls[..|calls| - 1], calls[|calls| - 1];
      CallsKeepInv(s, front);
      var t := AfterCalls(s, front);
      match last {
        case Send(message) =>
          SendKeepsInv(t.(pendingReads := 1), message);
          assert AfterSend(t.(pendingReads := 1), message) == AfterSend(t, message).(pendingReads := 1);
        case Stop =>
      }
    }
  }

  lemma FailureStep(s: State)
    requires |s.pendingWrites| == 1 && s.failed == []
    requires s.started == s.completed + s.failed + s.pendingWrites
    ensures var u := s.(pendingWrites := [], failed := s.pendingWrites, writeInProgress := false);
            && AfterWriteDone(s, 0, true) == Notified(u)
            && u.started == u.completed + u.failed + u.pendingWrites
  {
    assert s.failed + [s.pendingWrites[0]] == s.pendingWrites;
    assert s.pendingWrites[..0] + s.pendingWrites[1..] == [];
    assert s.completed + s.failed + s.pendingWrites == s.completed + s.pendingWrites + [];
    assert WriteRetired(s, 0, true) == s.(pendingWrites := [], failed := s.pendingWrites);
  }

  lemma WriteFailureKeepsInv(s: State)
    requires Inv(s) && s.pendingWrites != []
    ensures Inv(AfterWriteDone(s, 0, true))
  {
    FailureStep(s);
    FailureKeepsInv(s, s.(pendingWrites := [], failed := s.pendingWrites, writeInProgress := false));
  }

  lemma FailureKeepsInv(s: State, u: State)
    requires Inv(s) && s.failed == [] && |s.pendingWrites| == 1
    requires u == s.(pendingWrites := [], failed := s.pendingWrites, writeInProgress := false)
    requires u.started == u.completed + u.failed + u.pendingWrites
    ensures Inv(Notified(u))
  {
  }

  lemma WriteSuccessKeepsInv(s: State)
    requires Inv(s) && s.pendingWrites != []
    ensures Inv(AfterWriteDone(s, 0, false))
  {
    assert s.pendingWrites == [s.pendingWrites[0]] && s.failed == [];
    var t := WriteRetired(s, 0, false);
    assert t.pendingWrites == [] && t.completed == s.started;
    if s.queue == [] {
      assert AfterWriteDone(s, 0, false) == t.(writeInProgress := false);
    } else {
      FrontCompleted(s, t);
      var u := t.(queue := s.queue[1..]);
      if s.open && u.queue != [] {
        NextStarts(u);
        assert AfterWriteDone(s, 0, false) == AfterWrite(u);
      } else {
        NoneStarts(u);
        assert AfterWriteDone(s, 0, false) == u.(writeInProgress := false);
      }
    }
  }

  lemma NoneStarts(u: State)
    requires !u.open || u.queue == []
    requires !u.disconnected ==> u.open
    requires u.stopped <==> !u.open
    requires u.stopped ==> u.disconnected
    requires u.callbacks == 0 && (!u.disconnected || u.stopped)
    requires u.pendingWrites == [] && u.failed == []
    requires u.started == u.completed && u.accepted == u.completed + u.queue
    requires u.pendingReads <= (if u.reading then 1 else 0)
    requires u.reading && !u.disconnected ==> u.pendingReads == 1
    ensures Inv(u.(writeInProgress := false))
  {
  }

  lemma FrontCompleted(s: State, t: State)
    requires Inv(s) && s.pendingWrites != [] && s.queue != [] && t == WriteRetired(s, 0, false)
    ensures t.completed <= t.accepted
    ensures !s.disconnected || s.stopped
    ensures t.accepted == t.completed + s.queue[1..]
  {
  }

  lemma NextStarts(u: State)
    requires u.open && !u.disconnected && !u.stopped && u.queue != [] && u.writeInProgress
    requires u.pendingWrites == [] && u.failed == [] && u.callbacks == 0
    requires u.started == u.completed && u.accepted == u.completed + u.queue
    requires u.pendingReads == (if u.reading then 1 else 0)
    ensures Inv(AfterWrite(u))
  {
  }

  lemma StepKeepsInv(s: State, e: Event)
    requires Inv(s) && Enabled(s, e)
    ensures Inv(Step(s, e))
  {
    match e {
      case Start =>
      case Dispatched(Send(message)) => SendKeepsInv(s, message);
      case Dispatched(Stop) =>
      case ReadDone(error, reaction) =>
        var t := s.(pendingReads := s.pendingReads - 1);
        assert s == t.(pendingReads := 1);
        if !error {
          CallsKeepInv(t, reaction);
        }
      case WriteDone(index, error) =>
        assert index == 0;
        if error {
          WriteFailureKeepsInv(s);
        } else {
          WriteSuccessKeepsInv(s);
        }
    }
  }

  lemma {:induction false} RunKeepsInv(s: State, events: seq<Event>)
    requires Inv(s) && Legal(s, events)
    ensures Inv(Run(s, events))
    decreases |events|
  {
    if events != [] {
      StepKeepsInv(s, events[0]);
      RunKeepsInv(Step(s, events[0]), events[1..]);
    }
  }

  // ---------- What every run guarantees ----------

  /** The writer discipline, for every order of handlers: one write at a time, always of the queue's front. */
  lemma WriterDiscipline(events: seq<Event>)
    requires Legal(INITIAL, events)
    ensures var s := Run(INITIAL, events);
            && |s.pendingWrites| <= 1
            && (!s.disconnected ==>
                  && s.open
                  && (s.writeInProgress <==> s.queue != [])
                  && (s.pendingWrites != [] <==> s.queue != [])
                  && (s.pendingWrites != [] ==> s.pendingWrites == [s.queue[0]])
                  && (s.reading <==> s.pendingReads == 1))
            && (s.disconnected ==> !s.open || s.queue == [])
  {
    RunKeepsInv(INITIAL, events);
  }

  /**
   on_disconnect_ ran once exactly when the session disconnected without Stop; the socket closes only through Stop.
   */
  lemma DisconnectReportedOnce(events: seq<Event>)
    requires Legal(INITIAL, events)
    ensures var s := Run(INITIAL, events);
            && (s.open <==> !s.stopped)
            && (!s.open ==> s.disconnected)
            && s.callbacks == (if s.disconnected && !s.stopped then 1 else 0)
  {
    RunKeepsInv(INITIAL, events);
  }

  /** The messages SendMsg was asked to send during a run, those of the read callback included. */
  function CallMessages(calls: seq<Call>): seq<Bytes>
    decreases |calls|
  {
    if calls == [] then []
    else
      CallMessages(calls[..|calls| - 1])
      + match calls[|calls| - 1] case Send(message) => [message] case Stop => []
  }

  lemma OneCallRuns(s: State, call: Call)
    ensures AfterCalls(s, [call]) == AfterCall(s, call)
  {
    assert [call][..0] == [];
  }

  lemma OneCallMessages(call: Call)
    ensures CallMessages([call]) == match call case Send(message) => [message] case Stop => []
  {
    assert [call][..0] == [];
  }

  function EventMessages(e: Event): seq<Bytes> {
    match e
    case Dispatched(call) => CallMessages([call])
    case ReadDone(error, reaction) => if error then [] else CallMessages(reaction)
    case _ => []
  }

  function SentMessages(events: seq<Event>): seq<Bytes>
    decreases |events|
  {
    if events == [] then [] else EventMessages(events[0]) + SentMessages(events[1..])
  }

  /** t comes after s and accepted, in order, a prefix of sent; it accepted all of it unless it is disconnected. */
  ghost predicate Accepts(s: State, sent: seq<Bytes>, t: State) {
    && (s.disconnected ==> t.disconnected)
    && s.accepted <= t.accepted <= s.accepted + sent
    && (!t.disconnected ==> t.accepted == s.accepted + sent)
    && (s.disconnected ==> t.accepted == s.accepted && t.started == s.started && t.callbacks == s.callbacks)
  }

  lemma {:induction false} CallsAccept(s: State, calls: seq<Call>)
    requires InvDuringRead(s)
    ensures Accepts(s, CallMessages(calls), AfterCalls(s, calls))
    decreases |calls|
  {
    if calls != [] {
      var front := calls[..|calls| - 1];
      CallsAccept(s, front);
      CallsKeepInv(s, front);
      var t := AfterCalls(s, front);
      assert !t.disconnected ==> t.open by { assert Inv(t.(pendingReads := 1)); }
    }
  }

  lemma WriteDoneAccepts(s: State, index: nat, error: bool)
    requires Inv(s) && index < |s.pendingWrites|
    ensures Accepts(s, [], AfterWriteDone(s, index, error))
  {
    assert index == 0;
  }

  lemma StepAccepts(s: State, e: Event)
    requires Inv(s) && Enabled(s, e)
    ensures Accepts(s, EventMessages(e), Step(s, e))
  {
    match e {
      case ReadDone(error, reaction) =>
        var t := s.(pendingReads := s.pendingReads - 1);
        assert s == t.(pendingReads := 1);
        if !error {
          CallsAccept(t, reaction);
          CallsKeepInv(t, reaction);
          var u := AfterCalls(t, reaction);
          assert Inv(u.(pendingReads := 1));
        }
      case Dispatched(call) =>
        assert [call][..0] == [];
        assert CallMessages([call]) == match call case Send(message) => [message] case Stop => [];
      case Start =>
      case WriteDone(index, error) => WriteDoneAccepts(s, index, error);
    }
  }

  lemma AcceptsChain(s: State, sent: seq<Bytes>, t: State, rest: seq<Bytes>, u: State)
    requires Accepts(s, sent, t) && Accepts(t, rest, u)
    ensures Accepts(s, sent + rest, u)
  {
  }

  lemma {:induction false} RunAccepts(s: State, events: seq<Event>)
    requires Inv(s) && Legal(s, events)
    ensures Accepts(s, SentMessages(events), Run(s, events))
    decreases |events|
  {
    if events != [] {
      var t := Step(s, events[0]);
      StepKeepsInv(s, events[0]);
      StepAccepts(s, events[0]);
      RunAccepts(t, events[1..]);
      AcceptsChain(s, EventMessages(events[0]), t, SentMessages(events[1..]), Run(t, events[1..]));
    }
  }

  /**
   The socket sees the sent messages in order, without loss or duplication: what was started is a prefix of what was
   sent, and until disconnect what completed followed by the queue is everything sent.
   */
  lemma InOrderDelivery(events: seq<Event>)
    requires Legal(INITIAL, events)
    ensures var s := Run(INITIAL, events);
            && s.completed <= s.started <= s.accepted <= SentMessages(events)
            && |s.started| <= |s.completed| + 1
            && (!s.disconnected ==> s.completed + s.queue == SentMessages(events))
  {
    RunKeepsInv(INITIAL, events);
    RunAccepts(INITIAL, events);
  }

  /** After disconnect nothing more is accepted, started or reported, whatever handlers still run. */
  lemma NothingAfterDisconnect(before: seq<Event>, after: seq<Event>)
    requires Legal(INITIAL, before) && Run(INITIAL, before).disconnected
    requires Legal(Run(INITIAL, before), after)
    ensures var s, t := Run(INITIAL, before), Run(Run(INITIAL, before), after);
            && t.disconnected
            && t.accepted == s.accepted
            && t.started == s.started
            && t.callbacks == s.callbacks
  {
    RunKeepsInv(INITIAL, before);
    RunAccepts(Run(INITIAL, before), after);
  }

  function Successes(n: nat): seq<Event> {
    seq(n, _ => WriteDone(0, false))
  }

  lemma {:induction false} SuccessesDrain(s: State)
    requires Inv(s) && !s.disconnected
    ensures Legal(s, Successes(|s.queue|))
    ensures var t := Run(s, Successes(|s.queue|));
            && t.queue == [] && t.pendingWrites == [] && !t.writeInProgress && !t.disconnected
            && t.completed == s.accepted == t.accepted
    decreases |s.queue|
  {
    if s.queue != [] {
      var e := WriteDone(0, false);
      StepKeepsInv(s, e);
      StepAccepts(s, e);
      var t := Step(s, e);
      assert t.queue == s.queue[1..] && !t.disconnected;
      SuccessesDrain(t);
      assert Successes(|s.queue|)[1..] == Successes(|t.queue|);
    }
  }

  /** The queue never stalls: while connected, letting the outstanding writes succeed completes everything sent. */
  lemma QueueNeverStalls(events: seq<Event>)
    requires Legal(INITIAL, events) && !Run(INITIAL, events).disconnected
    ensures var s := Run(INITIAL, events);
            && Legal(s, Successes(|s.queue|))
            && Run(s, Successes(|s.queue|)).completed == SentMessages(events)
  {
    RunKeepsInv(INITIAL, events);
    RunAccepts(INITIAL, events);
    SuccessesDrain(Run(INITIAL, events));
  }

  // ---------- The object the handlers update ----------

  /** The session object. Its real fields are the program's; ghost fields hold what asio owes it, and histories. */
  class Session {
    var queue: seq<Bytes>
    var writeInProgress: bool
    var disconnected: bool
    var open: bool
    ghost var reading: bool
    ghost var pendingReads: nat
    ghost var pendingWrites: seq<Bytes>
    ghost var accepted: seq<Bytes>
    ghost var started: seq<Bytes>
    ghost var completed: seq<Bytes>
    ghost var failed: seq<Bytes>
    ghost var stopped: bool
    ghost var callbacks: nat

    ghost function View(): State
      reads this
    {
      State(queue, writeInProgress, disconnected, open, reading, pendingReads, pendingWrites,
            accepted, started, completed, failed, stopped, callbacks)
    }

    constructor ()
      ensures View() == INITIAL && Inv(View())
    {
      queue, writeInProgress, disconnected, open := [], false, false, true;
      reading, pendingReads, pendingWrites := false, 0, [];
      accepted, started, completed, failed, stopped, callbacks := [], [], [], [], false, 0;
    }

    method NotifyDisconnectOnce()
      modifies this
      ensures View() == Notified(old(View()))
    {
      if disconnected {
        return;
      }
      disconnected := true;
      writeInProgress := false;
      queue := [];
      callbacks := callbacks + 1;
    }

    method Write()
      modifies this
      ensures View() == AfterWrite(old(View()))
    {
      if !open {
        writeInProgress := false;
        NotifyDisconnectOnce();
        return;
      }
      if |queue| == 0 {
        writeInProgress := false;
        return;
      }
      ghost var chunk := queue[0];
      pendingWrites, started := pendingWrites + [chunk], started + [chunk];
    }

    method SendMsg(message: Bytes)
      modifies this
      ensures View() == AfterSend(old(View()), message)
    {
      if disconnected || !open {
        return;
      }
      queue := queue + [message];
      accepted := accepted + [message];
      if !writeInProgress {
        writeInProgress := true;
        Write();
      }
    }

    method StopSession()
      modifies this
      ensures View() == AfterStop(old(View()))
    {
      if disconnected {
        return;
      }
      disconnected := true;
      stopped := true;
      if open {
        open := false;
      }
    }

    method Read()
      modifies this
      ensures View() == AfterRead(old(View()))
    {
      if !open {
        NotifyDisconnectOnce();
        return;
      }
      pendingReads := pendingReads + 1;
    }

    method StartSession()
      requires Enabled(View(), Start)
      modifies this
      ensures View() == Step(old(View()), Start)
    {
      reading := true;
      Read();
    }

    /** The calls a callback makes on this session. */
    method React(calls: seq<Call>)
      modifies this
      ensures View() == AfterCalls(old(View()), calls)
    {
      for i := 0 to |calls|
        invariant View() == AfterCalls(old(View()), calls[..i])
      {
        assert calls[..i + 1][..i] == calls[..i];
        match calls[i] {
          case Send(message) => SendMsg(message);
          case Stop => StopSession();
        }
      }
      assert calls[..|calls|] == calls;
    }

    method ProcessRead(error: bool, reaction: seq<Call>)
      requires pendingReads > 0
      modifies this
      ensures View() == Step(old(View()), ReadDone(error, reaction))
    {
      pendingReads := pendingReads - 1;
      if error {
        NotifyDisconnectOnce();
        return;
      }
      React(reaction);
      Read();
    }

    method ProcessWrite(error: bool, ghost index: nat)
      requires index < |pendingWrites|
      modifies this
      ensures View() == Step(old(View()), WriteDone(index, error))
    {
      ghost var chunk := pendingWrites[index];
      pendingWrites := pendingWrites[..index] + pendingWrites[index + 1..];
      if error {
        failed := failed + [chunk];
        writeInProgress := false;
        NotifyDisconnectOnce();
        return;
      }
      completed := completed + [chunk];
      if |queue| != 0 {
        queue := queue[1..];
      }
      if |queue| == 0 {
        writeInProgress := false;
        return;
      }
      Write();
    }
  }
}
