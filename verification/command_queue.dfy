/** The broadcaster's command queue: a FIFO in which a command without a client id clears everything pending. */
module CommandQueues {
  import opened Common

  datatype Kind = SendSnapshot | SendMdUpdate

  /** A command with a client id goes to that client; one without is a broadcast. */
  datatype Command = Command(kind: Kind, client: Option<Word>, payload: Bytes)

  predicate IsBroadcast(c: Command) {
    c.client == None
  }

  /** Pushes are numbered from 0; the histories hold numbers, so equal commands stay distinguishable. */
  datatype State = State(
    queue: seq<Command>,
    numbers: seq<nat>,     // the numbers of the queued commands
    pushed: seq<Command>,
    popped: seq<nat>,
    absorbed: seq<nat>)    // cleared by a later broadcast, never popped

  ghost const EMPTY := State([], [], [], [], [])

  datatype Event = Push(command: Command) | Pop

  ghost function AfterPush(s: State, c: Command): State {
    var n := |s.pushed|;
    if IsBroadcast(c) then State([c], [n], s.pushed + [c], s.popped, s.absorbed + s.numbers)
    else State(s.queue + [c], s.numbers + [n], s.pushed + [c], s.popped, s.absorbed)
  }

  ghost function AfterPop(s: State): State
    requires s.queue != [] && |s.numbers| == |s.queue|
  {
    s.(queue := s.queue[1..], numbers := s.numbers[1..], popped := s.popped + [s.numbers[0]])
  }

  /** pop waits until the queue is non-empty. */
  ghost predicate Enabled(s: State, e: Event) {
    e.Pop? ==> s.queue != [] && |s.numbers| == |s.queue|
  }

  ghost function Step(s: State, e: Event): State
    requires Enabled(s, e)
  {
    match e
    case Push(c) => AfterPush(s, c)
    case Pop => AfterPop(s)
  }

  ghost predicate Legal(s: State, events: seq<Event>)
    decreases |events|
  {
    events == [] || (Enabled(s, events[0]) && Legal(Step(s, events[0]), events[1..]))
  }

  ghost function Run(s: State, events: seq<Event>): State
    requires Legal(s, events)
    decreases |events|
  {
    if events == [] then s else Run(Step(s, events[0]), events[1..])
  }

  // ---------- Invariant ----------

  ghost predicate Increasing(numbers: seq<nat>) {
    forall i, j :: 0 <= i < j < |numbers| ==> numbers[i] < numbers[j]
  }

  ghost predicate Below(numbers: seq<nat>, bound: int) {
    forall i :: 0 <= i < |numbers| ==> numbers[i] < bound
  }

  /** The commands with the given numbers. */
  ghost function Pick(pushed: seq<Command>, numbers: seq<nat>): seq<Command>
    requires Below(numbers, |pushed|)
  {
    seq(|numbers|, i requires 0 <= i < |numbers| => pushed[numbers[i]])
  }

  /** A later broadcast that was not itself absorbed stands in for number k. */
  ghost predicate Superseded(s: State, k: nat) {
    exists j :: k < j < |s.pushed| && IsBroadcast(s.pushed[j]) && j !in s.absorbed
  }

  /** The number of the oldest queued command. */
  ghost function Oldest(s: State): int {
    |s.pushed| - |s.queue|
  }

  ghost predicate Inv(s: State) {
    && 0 <= Oldest(s)
    && |s.numbers| == |s.queue|
    && (forall i :: 0 <= i < |s.numbers| ==> s.numbers[i] == Oldest(s) + i)
    && s.queue == s.pushed[Oldest(s)..]
    && Increasing(s.popped) && Below(s.popped, Oldest(s))
    && Increasing(s.absorbed) && Below(s.absorbed, Oldest(s))
    && (forall k :: 0 <= k < Oldest(s) ==> (k in s.popped <==> k !in s.absorbed))
    && (forall k {:trigger Superseded(s, k)} :: k in s.absorbed ==> Superseded(s, k))
    && (forall j :: Oldest(s) < j < |s.pushed| ==> !IsBroadcast(s.pushed[j]))
  }

  lemma QueuedNumbers(s: State)
    requires Inv(s)
    ensures forall k :: k in s.numbers <==> Oldest(s) <= k < |s.pushed|
  {
    forall k | Oldest(s) <= k < |s.pushed|
      ensures k in s.numbers
    {
      assert s.numbers[k - Oldest(s)] == k;
    }
  }

  lemma PushKeepsInv(s: State, c: Command)
    requires Inv(s)
    ensures Inv(AfterPush(s, c))
  {
    var t := AfterPush(s, c);
    QueuedNumbers(s);
    if IsBroadcast(c) {
      forall k | k in t.absorbed
        ensures Superseded(t, k)
      {
        assert t.pushed[|s.pushed|] == c;
        assert |s.pushed| !in t.absorbed;
      }
    } else {
      forall k | k in t.absorbed
        ensures Superseded(t, k)
      {
        assert Superseded(s, k);
        var j :| k < j < |s.pushed| && IsBroadcast(s.pushed[j]) && j !in s.absorbed;
        assert t.pushed[j] == s.pushed[j];
      }
    }
  }

  lemma PopKeepsInv(s: State)
    requires Inv(s) && s.queue != []
    ensures Inv(AfterPop(s))
  {
    var t := AfterPop(s);
    forall k | k in t.absorbed
      ensures Superseded(t, k)
    {
      assert Superseded(s, k);
    }
  }

  lemma StepKeepsInv(s: State, e: Event)
    requires Inv(s) && Enabled(s, e)
    ensures Inv(Step(s, e))
  {
    match e {
      case Push(c) => PushKeepsInv(s, c);
      case Pop => PopKeepsInv(s);
    }
  }

  lemma {:induction false} RunKeepsInv(s: State, events: seq<Event>)
    requires Inv(s) && Legal(s, events)
    ensures Inv(Run(s, events))
    decreases |events|
  {
    if events != [] {
      StepKeepsInv(s, events[0]);
      RunKeepsInv(Step(s, events[0]), events[1..]);
    }
  }

  // ---------- What every interleaving of pushes and pops guarantees ----------

  /** The queue holds exactly the unpopped pushes from the last broadcast onward; a broadcast can only be its head. */
  lemma QueueIsPendingSuffix(events: seq<Event>)
    requires Legal(EMPTY, events)
    ensures var s := Run(EMPTY, events);
            && |s.queue| <= |s.pushed|
            && s.queue == s.pushed[|s.pushed| - |s.queue|..]
            && (forall k :: 0 <= k < |s.pushed| ==>
                  (k >= |s.pushed| - |s.queue| <==>
                     k !in s.popped && forall j :: k < j < |s.pushed| ==> !IsBroadcast(s.pushed[j])))
            && (forall i :: 0 < i < |s.queue| ==> !IsBroadcast(s.queue[i]))
  {
    RunKeepsInv(EMPTY, events);
    PendingSuffix(Run(EMPTY, events));
  }

  lemma PendingSuffix(s: State)
    requires Inv(s)
    ensures forall k :: 0 <= k < |s.pushed| ==>
              (k >= |s.pushed| - |s.queue| <==>
                 k !in s.popped && forall j :: k < j < |s.pushed| ==> !IsBroadcast(s.pushed[j]))
  {
    forall k | 0 <= k < Oldest(s) && k !in s.popped
      ensures exists j :: k < j < |s.pushed| && IsBroadcast(s.pushed[j])
    {
      assert Superseded(s, k);
    }
  }

  /** Number k was pushed before a broadcast that was popped or is still queued. */
  ghost predicate Covered(s: State, k: nat) {
    exists j :: k < j < |s.pushed| && IsBroadcast(s.pushed[j]) && (j in s.popped || j in s.numbers)
  }

  lemma SupersededIsCovered(s: State, k: nat)
    requires Inv(s) && Superseded(s, k)
    ensures Covered(s, k)
  {
    QueuedNumbers(s);
    var j :| k < j < |s.pushed| && IsBroadcast(s.pushed[j]) && j !in s.absorbed;
    assert j in s.popped || j in s.numbers;
  }

  lemma IncreasingConcat(a: seq<nat>, b: seq<nat>, bound: int)
    requires Increasing(a) && Below(a, bound) && Increasing(b)
    requires forall i :: 0 <= i < |b| ==> bound <= b[i]
    ensures Increasing(a + b)
  {
  }

  lemma KeptInOrder(s: State)
    requires Inv(s)
    ensures Increasing(s.popped + s.numbers) && Below(s.popped, |s.pushed|) && Below(s.numbers, |s.pushed|)
    ensures Pick(s.pushed, s.numbers) == s.queue
  {
    IncreasingConcat(s.popped, s.numbers, Oldest(s));
  }

  lemma AllCovered(s: State)
    requires Inv(s)
    ensures forall k {:trigger Covered(s, k)} ::
              0 <= k < |s.pushed| ==> k in s.popped || k in s.numbers || Covered(s, k)
  {
    QueuedNumbers(s);
    forall k | 0 <= k < |s.pushed| && k in s.absorbed
      ensures Covered(s, k)
    {
      SupersededIsCovered(s, k);
    }
  }

  /**
   Absorption refines the FIFO: what was popped, followed by what is queued, is an in-order subsequence of the pushes,
   and whatever is missing from it was pushed before a broadcast that is not missing.
   */
  lemma AbsorptionRefinesFifo(events: seq<Event>)
    requires Legal(EMPTY, events)
    ensures var s := Run(EMPTY, events);
            && Increasing(s.popped + s.numbers)
            && Below(s.popped, |s.pushed|) && Below(s.numbers, |s.pushed|)
            && Pick(s.pushed, s.numbers) == s.queue
            && forall k {:trigger Covered(s, k)} :: 0 <= k < |s.pushed| ==>
                 k in s.popped || k in s.numbers || Covered(s, k)
  {
    RunKeepsInv(EMPTY, events);
    KeptInOrder(Run(EMPTY, events));
    AllCovered(Run(EMPTY, events));
  }

  /** Conservation, as multisets: pushed = popped + queued + absorbed. */
  ghost predicate Conserved(s: State)
    requires Below(s.popped, |s.pushed|) && Below(s.absorbed, |s.pushed|)
  {
    multiset(s.pushed) == multiset(Pick(s.pushed, s.popped)) + multiset(s.queue) + multiset(Pick(s.pushed, s.absorbed))
  }

  lemma PickExtended(pushed: seq<Command>, c: Command, numbers: seq<nat>)
    requires Below(numbers, |pushed|)
    ensures Below(numbers, |pushed + [c]|) && Pick(pushed + [c], numbers) == Pick(pushed, numbers)
  {
  }

  lemma PickConcat(pushed: seq<Command>, a: seq<nat>, b: seq<nat>)
    requires Below(a, |pushed|) && Below(b, |pushed|)
    ensures Below(a + b, |pushed|) && Pick(pushed, a + b) == Pick(pushed, a) + Pick(pushed, b)
  {
  }

  lemma BroadcastConserves(s: State, c: Command)
    requires Inv(s) && Conserved(s) && IsBroadcast(c)
    requires Below(s.popped, |s.pushed| + 1) && Below(s.absorbed + s.numbers, |s.pushed| + 1)
    ensures Conserved(AfterPush(s, c))
  {
    PickExtended(s.pushed, c, s.popped);
    PickExtended(s.pushed, c, s.absorbed + s.numbers);
    PickConcat(s.pushed, s.absorbed, s.numbers);
    assert Pick(s.pushed, s.numbers) == s.queue;
    assert multiset(s.pushed + [c]) == multiset(s.pushed) + multiset([c]);
  }

  lemma DirectConserves(s: State, c: Command)
    requires Inv(s) && Conserved(s) && !IsBroadcast(c)
    requires Below(s.popped, |s.pushed| + 1) && Below(s.absorbed, |s.pushed| + 1)
    ensures Conserved(AfterPush(s, c))
  {
    PickExtended(s.pushed, c, s.popped);
    PickExtended(s.pushed, c, s.absorbed);
    assert multiset(s.pushed + [c]) == multiset(s.pushed) + multiset([c]);
    assert multiset(s.queue + [c]) == multiset(s.queue) + multiset([c]);
  }

  lemma PopConserves(s: State)
    requires Inv(s) && Conserved(s) && s.queue != [] && Inv(AfterPop(s))
    ensures Conserved(AfterPop(s))
  {
    var t := AfterPop(s);
    assert s.queue == [s.queue[0]] + t.queue;
    assert Pick(t.pushed, t.popped) == Pick(s.pushed, s.popped) + [s.queue[0]];
  }

  lemma {:induction false} RunConserves(s: State, events: seq<Event>)
    requires Inv(s) && Conserved(s) && Legal(s, events)
    ensures Inv(Run(s, events)) && Conserved(Run(s, events))
    decreases |events|
  {
    if events != [] {
      StepKeepsInv(s, events[0]);
      match events[0] {
        case Push(c) =>
          if IsBroadcast(c) {
            BroadcastConserves(s, c);
          } else {
            DirectConserves(s, c);
          }
        case Pop => PopConserves(s);
      }
      RunConserves(Step(s, events[0]), events[1..]);
    }
  }

  lemma NothingLost(events: seq<Event>)
    requires Legal(EMPTY, events)
    ensures Inv(Run(EMPTY, events)) && Conserved(Run(EMPTY, events))
  {
    RunConserves(EMPTY, events);
  }

  /** The commands pushed in the course of a run, in order. */
  function Pushes(events: seq<Event>): seq<Command> {
    if events == [] then []
    else (if events[0].Push? then [events[0].command] else []) + Pushes(events[1..])
  }

  /** The pushes that the histories record are those that were made. */
  lemma {:induction false} PushedAsAsked(s: State, events: seq<Event>)
    requires Legal(s, events)
    ensures Run(s, events).pushed == s.pushed + Pushes(events)
    decreases |events|
  {
    if events != [] {
      var t := Step(s, events[0]);
      PushedAsAsked(t, events[1..]);
      var first := if events[0].Push? then [events[0].command] else [];
      assert t.pushed == s.pushed + first;
      assert s.pushed + first + Pushes(events[1..]) == s.pushed + (first + Pushes(events[1..]));
    }
  }

  // ---------- The documented absorption ----------

  /** What the design documents let a snapshot broadcast absorb: pending snapshots for single clients. */
  predicate Absorbable(c: Command) {
    c.kind.SendSnapshot? && c.client.Some?
  }

  function Unabsorbed(queue: seq<Command>): (rest: seq<Command>)
    ensures |rest| <= |queue|
    ensures |rest| == |queue| ==> rest == queue
  {
    if queue == [] then []
    else
      var front, last := Unabsorbed(queue[..|queue| - 1]), queue[|queue| - 1];
      if Absorbable(last) then front else front + [last]
  }

  /** The queue after a push that absorbs only what is documented, and only by a snapshot broadcast. */
  function DocumentedPush(queue: seq<Command>, c: Command): seq<Command> {
    (if c.kind.SendSnapshot? && IsBroadcast(c) then Unabsorbed(queue) else queue) + [c]
  }

  lemma {:induction false} UnabsorbedEmptyIff(queue: seq<Command>)
    ensures Unabsorbed(queue) == [] <==> forall x :: x in queue ==> Absorbable(x)
  {
    if queue != [] {
      var front, last := queue[..|queue| - 1], queue[|queue| - 1];
      UnabsorbedEmptyIff(front);
      assert queue == front + [last];
    }
  }

  /**
   The code absorbs what is documented exactly if the push is for one client, or is a snapshot broadcast over nothing
   but snapshots for single clients, or meets an empty queue.
   */
  lemma PushAsDocumentedIff(s: State, c: Command)
    ensures AfterPush(s, c).queue == DocumentedPush(s.queue, c) <==>
              (c.client.Some? || forall x :: x in s.queue ==> c.kind.SendSnapshot? && Absorbable(x))
  {
    UnabsorbedEmptyIff(s.queue);
    if c.client == None {
      var rest := if c.kind.SendSnapshot? then Unabsorbed(s.queue) else s.queue;
      assert |[c]| == 1 && |rest + [c]| == |rest| + 1;
      assert rest == [] ==> rest + [c] == [c];
      if s.queue != [] {
        assert s.queue[0] in s.queue;
      }
    }
  }

  /** It is not met when a market-data update follows a snapshot for a client: the snapshot is lost. */
  lemma UpdateAbsorbsSnapshot(client: Word, snapshot: Bytes, update: Bytes)
    ensures var mine, all := Command(SendSnapshot, Some(client), snapshot), Command(SendMdUpdate, None, update);
            && AfterPush(AfterPush(EMPTY, mine), all).queue == [all]
            && DocumentedPush(AfterPush(EMPTY, mine).queue, all) == [mine, all]
  {
  }

  // ---------- The object ----------

  class CommandQueue {
    var queue: seq<Command>
    ghost var numbers: seq<nat>
    ghost var pushed: seq<Command>
    ghost var popped: seq<nat>
    ghost var absorbed: seq<nat>

    ghost function View(): State
      reads this
    {
      State(queue, numbers, pushed, popped, absorbed)
    }

    constructor ()
      ensures View() == EMPTY
    {
      queue, numbers, pushed, popped, absorbed := [], [], [], [], [];
    }

    method Push(c: Command)
      requires Inv(View())
      modifies this
      ensures View() == AfterPush(old(View()), c) && Inv(View())
    {
      PushKeepsInv(View(), c);
      if c.client == None {
        absorbed := absorbed + numbers;
        queue, numbers := [], [];
      }
      queue := queue + [c];
      numbers := numbers + [|pushed|];
      pushed := pushed + [c];
    }

    /** Called once the wait for a non-empty queue is over. */
    method Pop() returns (c: Command)
      requires Inv(View()) && |queue| > 0
      modifies this
      ensures View() == AfterPop(old(View())) && Inv(View())
      ensures c == old(queue)[0]
    {
      PopKeepsInv(View());
      c := queue[0];
      popped := popped + [numbers[0]];
      queue, numbers := queue[1..], numbers[1..];
    }
  }
}
