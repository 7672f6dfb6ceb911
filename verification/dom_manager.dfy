/**
 The periodic broadcast: a start/stop/reschedule state machine over one timer. Cancelling a wait completes it as
 aborted, unless it has already expired and its successful completion is queued; queued completions cannot be recalled.
 Nothing in `State` bounds the number of waits, and completions may be handled in any order.
 */
module DomManagers {
  import opened Common
  import Q = CommandQueues

  /** A wait carries the parameters its handler will reschedule with. */
  datatype Wait = Wait(interval: int, testBroadcast: bool)

  datatype Completion = Completion(wait: Wait, aborted: bool)

  datatype State = State(
    broadcasting: bool,
    armed: seq<Wait>,            // waits that have neither expired nor been cancelled
    ready: seq<Completion>,      // completion handlers queued on the io thread
    current: Option<Wait>,       // the parameters of the last start that took effect
    expiries: nat,               // waits that ever expired
    sent: nat,                   // snapshots the timer sent
    ignored: nat)                // successful completions handled while stopped

  /** Nothing started, nothing pending. */
  predicate Initial(s: State) {
    && !s.broadcasting && |s.armed| == 0 && |s.ready| == 0 && s.current == None
    && s.expiries == 0 && s.sent == 0 && s.ignored == 0
  }

  datatype Event =
    | Start(wait: Wait)
    | Stop
    | Expire(index: nat)
    | Complete(index: nat)

  function Aborted(waits: seq<Wait>): seq<Completion> {
    seq(|waits|, i requires 0 <= i < |waits| => Completion(waits[i], true))
  }

  /** cancel() and expires_after() abort whatever is armed. */
  function Cancelled(s: State): State {
    s.(armed := [], ready := s.ready + Aborted(s.armed))
  }

  function Scheduled(s: State, w: Wait): State {
    if !s.broadcasting then s else Cancelled(s).(armed := [w])
  }

  function Started(s: State, w: Wait): State {
    if s.broadcasting then s else Scheduled(s.(broadcasting := true, current := Some(w)), w)
  }

  function Stopped(s: State): State {
    Cancelled(s.(broadcasting := false))
  }

  function Expired(s: State, i: nat): State
    requires i < |s.armed|
  {
    s.(armed := Without(s.armed, i), ready := s.ready + [Completion(s.armed[i], false)], expiries := s.expiries + 1)
  }

  function Completed(s: State, i: nat): State
    requires i < |s.ready|
  {
    var c := s.ready[i];
    var t := s.(ready := Without(s.ready, i));
    if c.aborted then t
    else if !s.broadcasting then t.(ignored := s.ignored + 1)
    else Scheduled(t.(sent := s.sent + 1), c.wait)
  }

  predicate Enabled(s: State, e: Event) {
    match e
    case Expire(i) => i < |s.armed|
    case Complete(i) => i < |s.ready|
    case _ => true
  }

  function Step(s: State, e: Event): State
    requires Enabled(s, e)
  {
    match e
    case Start(w) => Started(s, w)
    case Stop => Stopped(s)
    case Expire(i) => Expired(s, i)
    case Complete(i) => Completed(s, i)
  }

  predicate Legal(s: State, events: seq<Event>)
    decreases |events|
  {
    events == [] || (Enabled(s, events[0]) && Legal(Step(s, events[0]), events[1..]))
  }

  function Run(s: State, events: seq<Event>): State
    requires Legal(s, events)
    decreases |events|
  {
    if events == [] then s else Run(Step(s, events[0]), events[1..])
  }

  // ---------- Invariant ----------

  function SuccessesTo(ready: seq<Completion>, n: nat): nat
    requires n <= |ready|
  {
    if n == 0 then 0 else SuccessesTo(ready, n - 1) + if ready[n - 1].aborted then 0 else 1
  }

  /** The successful completions among those queued. */
  function Successes(ready: seq<Completion>): nat {
    SuccessesTo(ready, |ready|)
  }

  lemma {:induction false} SuccessesConcat(a: seq<Completion>, b: seq<Completion>, n: nat)
    requires n <= |b|
    ensures SuccessesTo(a + b, |a| + n) == Successes(a) + SuccessesTo(b, n)
  {
    if n == 0 {
      SamePrefix(a + b, a, |a|);
    } else {
      SuccessesConcat(a, b, n - 1);
    }
  }

  lemma {:induction false} SamePrefix(a: seq<Completion>, b: seq<Completion>, n: nat)
    requires n <= |a| && n <= |b| && forall i :: 0 <= i < n ==> a[i] == b[i]
    ensures SuccessesTo(a, n) == SuccessesTo(b, n)
  {
    if n > 0 {
      SamePrefix(a, b, n - 1);
    }
  }

  lemma {:induction false} SuccessesWithoutTo(ready: seq<Completion>, i: nat, n: nat)
    requires i < n <= |ready|
    ensures SuccessesTo(ready, n) == SuccessesTo(Without(ready, i), n - 1) + if ready[i].aborted then 0 else 1
  {
    if n == i + 1 {
      SamePrefix(ready, Without(ready, i), i);
    } else {
      SuccessesWithoutTo(ready, i, n - 1);
      assert Without(ready, i)[n - 2] == ready[n - 1];
    }
  }

  lemma SuccessesWithout(ready: seq<Completion>, i: nat)
    requires i < |ready|
    ensures Successes(ready) == Successes(Without(ready, i)) + if ready[i].aborted then 0 else 1
  {
    SuccessesWithoutTo(ready, i, |ready|);
  }

  lemma {:induction false} AbortedHasNoSuccess(waits: seq<Wait>, n: nat)
    requires n <= |waits|
    ensures SuccessesTo(Aborted(waits), n) == 0
  {
    if n > 0 {
      AbortedHasNoSuccess(waits, n - 1);
    }
  }

  /** The broadcast chains alive: an armed wait, or a successful completion still to be handled, continues a chain. */
  function Chains(s: State): nat {
    |s.armed| + Successes(s.ready)
  }

  ghost predicate Inv(s: State) {
    && |s.armed| <= 1
    && (!s.broadcasting ==> s.armed == [])
    && (s.broadcasting ==> Chains(s) > 0)
    && s.expiries == s.sent + s.ignored + Successes(s.ready)
  }

  lemma CancelledCounts(s: State)
    ensures Successes(Cancelled(s).ready) == Successes(s.ready)
  {
    SuccessesConcat(s.ready, Aborted(s.armed), |s.armed|);
    AbortedHasNoSuccess(s.armed, |s.armed|);
  }

  /**
   How each event moves the number of chains: a start adds one, a handled completion merges its chain into the timer.
   */
  lemma StepMovesChains(s: State, e: Event)
    requires Inv(s) && Enabled(s, e)
    ensures Inv(Step(s, e))
    ensures Chains(Step(s, e)) == match e
      case Start(_) => Chains(s) + (if s.broadcasting then 0 else 1)
      case Stop => Chains(s) - |s.armed|
      case Expire(_) => Chains(s)
      case Complete(i) =>
        if s.ready[i].aborted then Chains(s)
        else if !s.broadcasting then Chains(s) - 1
        else Chains(s) - |s.armed|
  {
    match e {
      case Start(w) => CancelledCounts(s.(broadcasting := true, current := Some(w)));
      case Stop => CancelledCounts(s.(broadcasting := false));
      case Expire(i) => SuccessesConcat(s.ready, [Completion(s.armed[i], false)], 1);
      case Complete(i) =>
        SuccessesWithout(s.ready, i);
        CancelledCounts(s.(ready := Without(s.ready, i)));
        CancelledCounts(s.(ready := Without(s.ready, i), sent := s.sent + 1));
    }
  }

  lemma {:induction false} RunKeepsInv(s: State, events: seq<Event>)
    requires Inv(s) && Legal(s, events)
    ensures Inv(Run(s, events))
    decreases |events|
  {
    if events != [] {
      StepMovesChains(s, events[0]);
      RunKeepsInv(Step(s, events[0]), events[1..]);
    }
  }

  // ---------- What every interleaving guarantees ----------

  lemma InitialInv(s: State)
    requires Initial(s)
    ensures Inv(s)
  {
  }

  /** One timer: never two armed waits; none while stopped; while broadcasting the chain never dies. */
  lemma OneChainNeverDies(start: State, events: seq<Event>)
    requires Initial(start) && Legal(start, events)
    ensures var s := Run(start, events);
            && |s.armed| <= 1
            && (!s.broadcasting ==> s.armed == [])
            && (s.broadcasting ==> s.armed != [] || exists i :: 0 <= i < |s.ready| && !s.ready[i].aborted)
  {
    InitialInv(start);
    RunKeepsInv(start, events);
    assert Inv(Run(start, events));
    SomeSuccess(Run(start, events).ready, |Run(start, events).ready|);
  }

  lemma {:induction false} SomeSuccess(ready: seq<Completion>, n: nat)
    requires n <= |ready|
    ensures SuccessesTo(ready, n) > 0 <==> exists i :: 0 <= i < n && !ready[i].aborted
  {
    if n > 0 {
      SomeSuccess(ready, n - 1);
    }
  }

  /**
   Each expired wait is accounted for once: its snapshot was sent, or ignored while stopped, or is about to be
   handled.
   */
  lemma OneSnapshotPerExpiry(start: State, events: seq<Event>)
    requires Initial(start) && Legal(start, events)
    ensures var s := Run(start, events); s.expiries == s.sent + s.ignored + Successes(s.ready)
  {
    InitialInv(start);
    RunKeepsInv(start, events);
  }

  /** Handles the queued completions, oldest first, until none is left. */
  function Drained(s: State): State
    requires |s.armed| <= 1
    decreases 2 * Successes(s.ready) + |s.ready|
  {
    if s.ready == [] then s
    else
      CompleteShrinks(s);
      Drained(Completed(s, 0))
  }

  lemma CompleteShrinks(s: State)
    requires |s.armed| <= 1 && s.ready != []
    ensures var t := Completed(s, 0);
            && |t.armed| <= 1
            && 2 * Successes(t.ready) + |t.ready| < 2 * Successes(s.ready) + |s.ready|
  {
    SuccessesWithout(s.ready, 0);
    CancelledCounts(s.(ready := Without(s.ready, 0)));
  }

  /**
   Stop/start cycles never create two periodic chains: once the completions queued now are handled, exactly one wait is
   armed if broadcasting is on, none if it is off, and nothing else is pending.
   */
  lemma {:induction false} StaleChainsMerge(s: State)
    requires Inv(s)
    ensures var t := Drained(s);
            && t.ready == [] && t.broadcasting == s.broadcasting
            && |t.armed| == (if s.broadcasting then 1 else 0)
    decreases 2 * Successes(s.ready) + |s.ready|
  {
    if s.ready != [] {
      CompleteShrinks(s);
      StepMovesChains(s, Complete(0));
      StaleChainsMerge(Completed(s, 0));
    }
  }

  // ---------- Whose interval is used ----------

  /** Every chain alive runs with the parameters of the last start that took effect. */
  ghost predicate AllCurrent(s: State) {
    && (forall i :: 0 <= i < |s.armed| ==> s.current == Some(s.armed[i]))
    && (forall i :: 0 <= i < |s.ready| && !s.ready[i].aborted ==> s.current == Some(s.ready[i].wait))
  }

  /** The start takes effect while a successful completion of a wait with other parameters is still queued. */
  ghost predicate StartsOverStale(s: State, e: Event) {
    && e.Start? && !s.broadcasting
    && exists i :: 0 <= i < |s.ready| && !s.ready[i].aborted && s.ready[i].wait != e.wait
  }

  /** The last start's parameters govern exactly until a start takes effect over a stale completion with others. */
  lemma ParametersCurrentIff(s: State, e: Event)
    requires Inv(s) && AllCurrent(s) && Enabled(s, e)
    ensures AllCurrent(Step(s, e)) <==> !StartsOverStale(s, e)
  {
    var t := Step(s, e);
    if StartsOverStale(s, e) {
      var i :| 0 <= i < |s.ready| && !s.ready[i].aborted && s.ready[i].wait != e.wait;
      assert t.ready[i] == s.ready[i];
    }
  }

  /**
   And then the stale completion takes the timer back: broadcasting goes on with the parameters of the earlier start.
   */
  lemma StaleParametersWin(s: State, w: Wait, i: nat)
    requires Inv(s) && !s.broadcasting && i < |s.ready| && !s.ready[i].aborted
    ensures var t := Started(s, w);
            && i < |t.ready| && t.current == Some(w) && t.armed == [w]
            && Completed(t, i).armed == [s.ready[i].wait] && Completed(t, i).broadcasting
  {
  }

  // ---------- The object ----------

  class DomManager {
    const queue: Q.CommandQueue          // the broadcaster's queue
    var broadcasting: bool
    ghost var armed: seq<Wait>
    ghost var ready: seq<Completion>
    ghost var current: Option<Wait>
    ghost var expiries: nat
    ghost var sent: nat
    ghost var ignored: nat

    ghost function View(): State
      reads this
    {
      State(broadcasting, armed, ready, current, expiries, sent, ignored)
    }

    constructor ()
      ensures Initial(View()) && fresh(queue) && queue.View() == Q.EMPTY
    {
      queue := new Q.CommandQueue();
      broadcasting := false;
      armed, ready, current, expiries, sent, ignored := [], [], None, 0, 0, 0;
    }

    ghost method CancelTimer()
      modifies this`armed, this`ready
      ensures View() == Cancelled(old(View()))
    {
      armed, ready := [], ready + Aborted(armed);
    }

    method StartBroadcasting(w: Wait)
      modifies this
      ensures View() == Started(old(View()), w)
    {
      if broadcasting {
        return;
      }
      broadcasting := true;
      current := Some(w);
      ScheduleNextBroadcast(w);
    }

    method StopBroadcasting()
      modifies this
      ensures View() == Stopped(old(View()))
    {
      broadcasting := false;
      CancelTimer();
    }

    method ScheduleNextBroadcast(w: Wait)
      modifies this`armed, this`ready
      ensures View() == Scheduled(old(View()), w)
    {
      if !broadcasting {
        return;
      }
      CancelTimer();
      armed := armed + [w];
    }

    /** Enqueues a snapshot for one client or for all, if the book has one. */
    method SendSnapshot(snapshot: Option<Bytes>, client: Option<Word>)
      requires Q.Inv(queue.View())
      modifies queue
      ensures Q.Inv(queue.View())
      ensures queue.View() == if snapshot == None then old(queue.View())
                              else Q.AfterPush(old(queue.View()), Q.Command(Q.SendSnapshot, client, snapshot.value))
    {
      if snapshot == None {
        return;
      }
      queue.Push(Q.Command(Q.SendSnapshot, client, snapshot.value));
    }

    /** The timer's handler for the i-th queued completion. */
    method OnTimer(c: Completion, ghost i: nat, snapshot: Option<Bytes>)
      requires Q.Inv(queue.View()) && i < |ready| && ready[i] == c
      modifies this, queue
      ensures View() == Completed(old(View()), i) && Q.Inv(queue.View())
      ensures queue.View() == if c.aborted || !old(broadcasting) || snapshot == None then old(queue.View())
                              else Q.AfterPush(old(queue.View()), Q.Command(Q.SendSnapshot, None, snapshot.value))
    {
      ready := Without(ready, i);
      if c.aborted || !broadcasting {
        ignored := if c.aborted then ignored else ignored + 1;
        return;
      }
      SendSnapshot(snapshot, None);
      sent := sent + 1;
      ScheduleNextBroadcast(c.wait);
    }
  }
}
