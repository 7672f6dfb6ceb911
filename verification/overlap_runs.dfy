/**
 Any number of commands overlapping one reader. Whether its report is right is asked at the load of the total: it is
 the report of the version committed by then, or of that version with the command in flight.
 */
module OverlapRuns {
  import opened Common
  import opened BookSpec
  import opened OrderBooks
  import opened BookSteps
  import opened BookOverlap

  /** The report is right at its load. */
  ghost predicate RightAtLoad(side: Side, log: seq<Op>, x: Reader)
    requires x.HasTotal? && x.totalAt <= |log|
  {
    var book := Version(log, x.totalAt);
    || Reports(side, book, x.price, x.quantity, x.total)
    || (x.during.Some? && Reports(side, Apply(book, x.during.value), x.price, x.quantity, x.total))
  }

  /** Commands number m up to n are harmless at the versions they meet. */
  ghost predicate HarmlessBetween(side: Side, log: seq<Op>, m: nat, n: nat, price: Word)
    requires n <= |log|
  {
    forall k :: m <= k < n ==> Harmless(side, Version(log, k), price, log[k])
  }

  lemma VersionStep(log: seq<Op>, n: nat)
    requires n < |log|
    ensures Version(log, n + 1) == Apply(Version(log, n), log[n])
  {
    assert log[..n + 1] == log[..n] + [log[n]];
    ReplaySnoc(log[..n], log[n]);
  }

  lemma VersionKeyed(log: seq<Op>, n: nat)
    requires n <= |log|
    ensures WellKeyed(Version(log, n))
  {
    ReplayKeepsKeys(map[], log[..n]);
  }

  /** A run of harmless commands keeps the best price and its level. */
  lemma {:induction false} HarmlessRunKeepsTop(side: Side, log: seq<Op>, m: nat, n: nat, price: Word)
    requires m <= n <= |log| && HarmlessBetween(side, log, m, n, price)
    requires BestPriceIs(side, Version(log, m), price)
    ensures BestPriceIs(side, Version(log, n), price)
    ensures Level(Version(log, n), price) == Level(Version(log, m), price)
    decreases n
  {
    if m < n {
      HarmlessRunKeepsTop(side, log, m, n - 1, price);
      VersionStep(log, n - 1);
      VersionKeyed(log, n - 1);
      HarmlessKeepsTop(side, Version(log, n - 1), price, log[n - 1]);
    }
  }

  /** Every command that met the reader between its first and its last read was harmless. */
  ghost predicate MetOnlyHarmless(side: Side, log: seq<Op>, x: Reader)
    requires x.HasTotal? && x.totalAt <= |log|
  {
    && HarmlessBetween(side, log, x.priceAt, x.totalAt, x.price)
    && (x.during.Some? ==> Harmless(side, Version(log, x.totalAt), x.price, x.during.value))
  }

  lemma HarmlessReaderIsRight(side: Side, log: seq<Op>, x: Reader)
    requires ReaderOk(side, log, x) && x.HasTotal? && MetOnlyHarmless(side, log, x)
    ensures RightAtLoad(side, log, x)
  {
    var book := Version(log, x.totalAt);
    HarmlessRunKeepsTop(side, log, x.priceAt, x.quantityAt, x.price);
    HarmlessRunKeepsTop(side, log, x.quantityAt, x.totalAt, x.price);
    BestPriceReports(side, book, x.price);
    if x.during.Some? {
      VersionKeyed(log, x.totalAt);
      HarmlessKeepsTop(side, book, x.price, x.during.value);
      BestPriceReports(side, Apply(book, x.during.value), x.price);
    }
  }

  /**
   In every interleaving of any number of writers and readers, a reader that met only harmless commands reports the
   version at its load exactly, or that version with the command in flight.
   */
  lemma HarmlessOverlapsAreExact(side: Side, events: seq<Event>, r: nat)
    requires Legal(side, EMPTY, events)
    requires r in Run(side, EMPTY, events).readers && Run(side, EMPTY, events).readers[r].HasTotal?
    ensures var s := Run(side, EMPTY, events);
            var x := s.readers[r];
            && x.totalAt <= |s.log|
            && (MetOnlyHarmless(side, s.log, x) ==> RightAtLoad(side, s.log, x))
  {
    RunKeepsInv(side, EMPTY, events);
    var s := Run(side, EMPTY, events);
    assert ReaderOk(side, s.log, s.readers[r]);
    if MetOnlyHarmless(side, s.log, s.readers[r]) {
      HarmlessReaderIsRight(side, s.log, s.readers[r]);
    }
  }

  // ---------- Which command sequences may overlap a reader ----------

  /** The commands that have taken the mutex, in order: the committed ones, and the one in flight. */
  function Started(s: State): seq<Op> {
    s.log + if s.writer.Some? then [s.writer.value.op] else []
  }

  /** From s on, commands take the mutex in the order of ops, as many as it may be, and reader r finishes its update. */
  ghost predicate Overlaps(side: Side, s: State, events: seq<Event>, ops: seq<Op>, r: nat) {
    && Legal(side, s, events) && Commands(events) <= ops
    && (forall i :: 0 <= i < |events| ==> !Rereads(events[i], r))
    && r in Run(side, s, events).readers && Run(side, s, events).readers[r].HasTotal?
  }

  ghost predicate OverlapIsRight(side: Side, s: State, events: seq<Event>, ops: seq<Op>, r: nat)
    requires Overlaps(side, s, events, ops, r)
  {
    var t := Run(side, s, events);
    t.readers[r].totalAt <= |t.log| && RightAtLoad(side, t.log, t.readers[r])
  }

  predicate Rereads(e: Event, r: nat) {
    e.ReadBest? && e.reader == r
  }

  /** The reader's first read is as it was, and the command in flight at its load has the number it would commit as. */
  ghost predicate Tracked(s: State, r: nat, price: Word, at: nat) {
    && r in s.readers && s.readers[r].price == price && s.readers[r].priceAt == at
    && (s.readers[r].HasTotal? && s.readers[r].during.Some? ==>
          var n := s.readers[r].totalAt; n < |Started(s)| && Started(s)[n] == s.readers[r].during.value)
  }

  lemma StepTracked(side: Side, s: State, e: Event, r: nat, price: Word, at: nat)
    requires Enabled(side, s, e) && Tracked(s, r, price, at) && !Rereads(e, r)
    ensures Tracked(Step(side, s, e), r, price, at)
  {
  }

  lemma {:induction false} RunTracked(side: Side, s: State, events: seq<Event>, r: nat, price: Word, at: nat)
    requires Legal(side, s, events) && Tracked(s, r, price, at)
    requires forall i :: 0 <= i < |events| ==> !Rereads(events[i], r)
    ensures Tracked(Run(side, s, events), r, price, at)
    decreases |events|
  {
    if events != [] {
      var t, rest := Step(side, s, events[0]), events[1..];
      StepTracked(side, s, events[0], r, price, at);
      forall i | 0 <= i < |rest|
        ensures !Rereads(rest[i], r)
      {
        assert rest[i] == events[i + 1];
      }
      RunTracked(side, t, rest, r, price, at);
    }
  }

  lemma StepStarted(side: Side, s: State, e: Event)
    requires Enabled(side, s, e)
    ensures Started(Step(side, s, e)) == Started(s) + if e.Acquire? then [e.op] else []
  {
  }

  lemma {:induction false} RunStarted(side: Side, s: State, events: seq<Event>)
    requires Legal(side, s, events)
    ensures Started(Run(side, s, events)) == Started(s) + Commands(events)
    decreases |events|
  {
    if events != [] {
      var e, rest := events[0], Commands(events[1..]);
      StepStarted(side, s, e);
      RunStarted(side, Step(side, s, e), events[1..]);
      var own := if e.Acquire? then [e.op] else [];
      assert Started(s) + (own + rest) == Started(s) + own + rest;
    }
  }

  lemma VersionOfPrefix(log: seq<Op>, longer: seq<Op>, n: nat)
    requires log <= longer && n <= |log|
    ensures Version(log, n) == Version(longer, n)
  {
    assert log[..n] == longer[..n];
  }

  /** Every command of ops is harmless at the version it meets when ops follow the log. */
  ghost predicate AllHarmless(side: Side, log: seq<Op>, price: Word, ops: seq<Op>) {
    HarmlessBetween(side, log + ops, |log|, |log + ops|, price)
  }

  lemma HarmlessOverlapIsRight(side: Side, s: State, events: seq<Event>, ops: seq<Op>, r: nat)
    requires Inv(side, s) && s.writer == None && r in s.readers
    requires s.readers[r].HasPrice? && s.readers[r].priceAt == |s.log|
    requires Overlaps(side, s, events, ops, r) && AllHarmless(side, s.log, s.readers[r].price, ops)
    ensures OverlapIsRight(side, s, events, ops, r)
  {
    var t, price := Run(side, s, events), s.readers[r].price;
    RunKeepsInv(side, s, events);
    assert ReaderOk(side, t.log, t.readers[r]);
    RunTracked(side, s, events, r, price, |s.log|);
    StartedFollows(side, s, events, ops);
    MetInOrder(side, t, s.log + ops, r, |s.log|);
    HarmlessReaderIsRight(side, t.log, t.readers[r]);
  }

  lemma StartedFollows(side: Side, s: State, events: seq<Event>, ops: seq<Op>)
    requires Legal(side, s, events) && s.writer == None && Commands(events) <= ops
    ensures Started(Run(side, s, events)) <= s.log + ops
  {
    RunStarted(side, s, events);
    assert Started(s) == s.log;
    assert ops == Commands(events) + ops[|Commands(events)|..];
  }

  lemma MetInOrder(side: Side, t: State, all: seq<Op>, r: nat, n: nat)
    requires n <= |all| && Started(t) <= all && r in t.readers && Tracked(t, r, t.readers[r].price, n)
    requires t.readers[r].HasTotal? && n <= t.readers[r].totalAt <= |t.log|
    requires HarmlessBetween(side, all, n, |all|, t.readers[r].price)
    ensures MetOnlyHarmless(side, t.log, t.readers[r])
  {
    forall k | n <= k <= t.readers[r].totalAt
      ensures Version(t.log, k) == Version(all, k)
    {
      VersionOfPrefix(t.log, all, k);
    }
  }

  // ---------- A harmful command tears some run ----------

  lemma {:induction false} CommandsConcat(first: seq<Event>, second: seq<Event>)
    ensures Commands(first + second) == Commands(first) + Commands(second)
  {
    if first == [] {
      assert first + second == second;
    } else {
      CommandsConcat(first[1..], second);
      assert first + second == [first[0]] + (first[1..] + second);
      CommandsCons(first[0], first[1..] + second);
    }
  }

  lemma {:induction false} RunConcat(side: Side, s: State, first: seq<Event>, second: seq<Event>)
    requires Legal(side, s, first) && Legal(side, Run(side, s, first), second)
    ensures Legal(side, s, first + second)
    ensures Run(side, s, first + second) == Run(side, Run(side, s, first), second)
    decreases |first|
  {
    var both := first + second;
    if first == [] {
      assert both == second;
    } else {
      RunConcat(side, Step(side, s, first[0]), first[1..], second);
      assert both[0] == first[0] && both[1..] == first[1..] + second;
    }
  }

  /** The writer in flight finishes alone. */
  lemma {:induction false} Finish(side: Side, s: State) returns (events: seq<Event>)
    requires s.writer.Some? && WriterOk(s.book, s.total, s.writer.value)
    ensures Legal(side, s, events) && Commands(events) == []
    ensures forall i :: 0 <= i < |events| ==> events[i] in {Advance, Release}
    ensures var w := s.writer.value;
            var book := Apply(w.before, w.op);
            Run(side, s, events) == State(book, Wrap(Sum(book)), None, s.readers, s.log + [w.op])
    decreases Length(s.writer.value.before, s.writer.value.op) - s.writer.value.pc
  {
    var w := s.writer.value;
    if w.pc == Length(w.before, w.op) {
      EndsOfTotal(w.before, w.op);
      events := [Release];
      assert events[1..] == [];
    } else {
      ExecuteKeepsWriter(s.book, s.total, w);
      var rest := Finish(side, Step(side, s, Advance));
      events := [Advance] + rest;
      assert events[1..] == rest;
      CommandsCons(Advance, rest);
    }
  }

  /** A command runs alone. */
  lemma Alone(side: Side, s: State, op: Op) returns (events: seq<Event>)
    requires s.writer == None && s.total == Wrap(Sum(s.book)) && Locks(op)
    ensures Legal(side, s, events) && Commands(events) == [op]
    ensures forall i :: 0 <= i < |events| ==> events[i] in {Acquire(op), Advance, Release}
    ensures var book := Apply(s.book, op);
            Run(side, s, events) == State(book, Wrap(Sum(book)), None, s.readers, s.log + [op])
  {
    var t := Step(side, s, Acquire(op));
    EndsOfTotal(s.book, op);
    if !Hits(s.book, op) {
      MissChangesNothing(s.book, op);
    }
    var rest := Finish(side, t);
    events := [Acquire(op)] + rest;
    assert events[1..] == rest;
    CommandsCons(Acquire(op), rest);
  }

  /** Exactly the commands that pass validation can take the mutex: no order with zero price or quantity, one id. */
  predicate Valid(op: Op) {
    match op
    case New(o) => o.price != 0 && o.quantity != 0
    case Cancel(_) => true
    case Replace(o, n) => n.price != 0 && n.quantity != 0 && o.id == n.id
  }

  /** From any reachable state with the mutex free, every valid command, and no other, can start and commits. */
  lemma ValidCommandsCommit(side: Side, before: seq<Event>, op: Op)
    requires Legal(side, EMPTY, before) && Run(side, EMPTY, before).writer == None
    ensures var s := Run(side, EMPTY, before);
            && (Valid(op) <==> Enabled(side, s, Acquire(op)))
            && (Valid(op) ==> exists events :: Commits(side, s, events, op))
  {
    RunKeepsInv(side, EMPTY, before);
    if Valid(op) {
      var events := Alone(side, Run(side, EMPTY, before), op);
      assert Commits(side, Run(side, EMPTY, before), events, op);
    }
  }

  /** The run adds op to the log, makes its change to the book, brings the total up to date, and frees the mutex. */
  ghost predicate Commits(side: Side, s: State, events: seq<Event>, op: Op) {
    && Legal(side, s, events)
    && var t := Run(side, s, events);
       && t.log == s.log + [op] && t.book == Apply(s.book, op) && t.total == Wrap(Sum(t.book))
       && t.writer == None && t.readers == s.readers
  }

  ghost predicate Torn(side: Side, s: State, events: seq<Event>, r: nat)
    requires Legal(side, s, events)
  {
    var t := Run(side, s, events);
    && r in t.readers && t.readers[r].HasTotal? && t.readers[r].totalAt <= |t.log|
    && !RightAtLoad(side, t.log, t.readers[r])
  }

  /** The reader reads its level before a harmful command, and the total at the statement where that command tears. */
  lemma TearAt(side: Side, s: State, op: Op, r: nat) returns (events: seq<Event>)
    requires Inv(side, s) && s.writer == None && Locks(op) && r in s.readers && s.readers[r].HasPrice?
    requires BestPriceIs(side, s.book, s.readers[r].price) && !Harmless(side, s.book, s.readers[r].price, op)
    ensures Overlaps(side, s, events, [op], r) && Torn(side, s, events, r)
  {
    ReplayKeepsKeys(map[], s.log);
    HarmfulTears(side, s.book, s.readers[r].price, op);
    events := RealizePlacement(side, s, op, r, TearingStatement(op));
    assert s.log[..|s.log|] == s.log;
  }

  /** Once the commands before it have run, the first harmful one tears the report. */
  lemma {:induction false} TearingOverlap(side: Side, s: State, ops: seq<Op>, r: nat) returns (events: seq<Event>)
    requires Inv(side, s) && s.writer == None && r in s.readers && s.readers[r].HasPrice?
    requires BestPriceIs(side, s.book, s.readers[r].price) && forall op :: op in ops ==> Locks(op)
    requires !AllHarmless(side, s.log, s.readers[r].price, ops)
    ensures Overlaps(side, s, events, ops, r) && Torn(side, s, events, r)
    decreases |ops|
  {
    var price, op := s.readers[r].price, ops[0];
    if !Harmless(side, s.book, price, op) {
      events := TearAt(side, s, op, r);
      assert [op] <= ops;
    } else {
      var first := Alone(side, s, op);
      var t := Run(side, s, first);
      RunKeepsInv(side, s, first);
      ReplayKeepsKeys(map[], s.log);
      HarmlessKeepsTop(side, s.book, price, op);
      HarmlessTail(side, s.log, price, ops);
      var rest := TearingOverlap(side, t, ops[1..], r);
      events := first + rest;
      AloneThenOverlap(side, s, first, rest, ops, r);
    }
  }

  lemma AloneThenOverlap(side: Side, s: State, first: seq<Event>, rest: seq<Event>, ops: seq<Op>, r: nat)
    requires ops != [] && Legal(side, s, first) && Commands(first) == [ops[0]]
    requires forall i :: 0 <= i < |first| ==> first[i] in {Acquire(ops[0]), Advance, Release}
    requires Overlaps(side, Run(side, s, first), rest, ops[1..], r) && Torn(side, Run(side, s, first), rest, r)
    ensures Overlaps(side, s, first + rest, ops, r) && Torn(side, s, first + rest, r)
  {
    RunConcat(side, s, first, rest);
    CommandsConcat(first, rest);
    assert ops == [ops[0]] + ops[1..];
  }

  lemma HarmlessTail(side: Side, log: seq<Op>, price: Word, ops: seq<Op>)
    requires ops != [] && Harmless(side, Replay(map[], log), price, ops[0])
    ensures AllHarmless(side, log, price, ops) <==> AllHarmless(side, log + [ops[0]], price, ops[1..])
  {
    assert log + ops == (log + [ops[0]]) + ops[1..];
    assert (log + ops)[..|log|] == log;
  }

  /**
   Exactly the sequences of harmless commands may overlap a reader: from any reachable state in which reader r has just
   read its best price, every interleaving of the commands with the reader's remaining reads, and with other readers,
   gives a right report if and only if each command misses, or enters or cancels an order strictly behind that price, at
   the version it meets.
   */
  lemma SequenceExactIffHarmless(side: Side, before: seq<Event>, ops: seq<Op>, r: nat)
    requires Legal(side, EMPTY, before) && forall op :: op in ops ==> Locks(op)
    requires var s := Run(side, EMPTY, before);
             s.writer == None && r in s.readers && s.readers[r].HasPrice? && s.readers[r].priceAt == |s.log|
    ensures var s := Run(side, EMPTY, before);
            (forall events :: Overlaps(side, s, events, ops, r) ==> OverlapIsRight(side, s, events, ops, r))
            <==> AllHarmless(side, s.log, s.readers[r].price, ops)
  {
    RunKeepsInv(side, EMPTY, before);
    var s := Run(side, EMPTY, before);
    var price := s.readers[r].price;
    if AllHarmless(side, s.log, price, ops) {
      forall events | Overlaps(side, s, events, ops, r)
        ensures OverlapIsRight(side, s, events, ops, r)
      {
        HarmlessOverlapIsRight(side, s, events, ops, r);
      }
    } else {
      assert s.log[..|s.log|] == s.log;
      assert ReaderOk(side, s.log, s.readers[r]);
      var events := TearingOverlap(side, s, ops, r);
      assert !OverlapIsRight(side, s, events, ops, r);
    }
  }
}
