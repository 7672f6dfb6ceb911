/**
 One side of the book under concurrency. Writers hold the side's mutex and execute one statement per step; the total
 is an atomic that changes in the middle of a critical section. Readers run GenerateMDUpdate on this side: best order
 and level under the shared mutex, then the total with no lock at all.
 */
module BookSteps {
  import opened Common
  import opened BookSpec
  import opened OrderBooks

  /** A writer inside its critical section: its command, the book it found, and how many statements it has executed. */
  datatype Writer = Writer(op: Op, before: Book, pc: nat)

  /**
   What a reader has gathered. Each value carries the number of the committed version it was read at; `during` is the
   command in its critical section when the total was loaded.
   */
  datatype Reader =
    | HasPrice(price: Word, priceAt: nat)
    | HasLevel(price: Word, priceAt: nat, quantity: Word, quantityAt: nat)
    | HasTotal(
        price: Word, priceAt: nat,
        quantity: Word, quantityAt: nat,
        total: Word, totalAt: nat, during: Option<Op>)

  datatype State = State(
    book: Book,
    total: Word,
    writer: Option<Writer>,      // the exclusive holder of the mutex
    readers: map<nat, Reader>,
    log: seq<Op>)          // commands whose critical section is over, oldest first

  datatype Event =
    | Acquire(op: Op)
    | Advance
    | Release
    | ReadBest(reader: nat, price: Word)
    | ReadLevel(reader: nat)
    | LoadTotal(reader: nat)

  const EMPTY := State(map[], 0, None, map[], [])

  /** Commands that fail validation return before taking the mutex. */
  predicate Locks(op: Op) {
    match op
    case New(o) => Acceptable(o)
    case Cancel(_) => true
    case Replace(o, n) => Acceptable(n) && o.id == n.id
  }

  /** Whether the command's lookup succeeds, so that its critical section changes something. */
  predicate Hits(before: Book, op: Op) {
    match op
    case New(o) => o.id !in before
    case Cancel(id) => id in before
    case Replace(o, _) => o.id in before
  }

  /** The number of statements in the critical section. */
  function Length(before: Book, op: Op): nat {
    if !Hits(before, op) then 0 else if op.Replace? then 3 else 2
  }

  ghost predicate BestPriceIs(side: Side, book: Book, price: Word) {
    if book == map[] then price == 0
    else exists id :: id in book && IsBest(side, book[id], book) && book[id].price == price
  }

  // ---------- Steps ----------

  ghost predicate Enabled(side: Side, s: State, e: Event) {
    match e
    case Acquire(op) => s.writer == None && Locks(op)
    case Advance => s.writer.Some? && s.writer.value.pc < Length(s.writer.value.before, s.writer.value.op)
    case Release => s.writer.Some? && s.writer.value.pc == Length(s.writer.value.before, s.writer.value.op)
    case ReadBest(r, price) => s.writer == None && BestPriceIs(side, s.book, price)
    case ReadLevel(r) => s.writer == None && r in s.readers && s.readers[r].HasPrice?
    case LoadTotal(r) => r in s.readers && s.readers[r].HasLevel?
  }

  /** The statement at pc: insert, erase or modify the order, or add to or subtract from the atomic total. */
  function Execute(book: Book, total: Word, w: Writer): (r: (Book, Word))
    requires w.pc < Length(w.before, w.op)
  {
    match w.op
    case New(o) => if w.pc == 0 then (book[o.id := o], total) else (book, Wrap(total + o.quantity))
    case Cancel(id) => if w.pc == 0 then (book, Wrap(total - w.before[id].quantity)) else (book - {id}, total)
    case Replace(o, n) =>
      if w.pc == 0 then (book, Wrap(total - w.before[o.id].quantity))
      else if w.pc == 1 then (book, Wrap(total + n.quantity))
      else (book[o.id := n], total)
  }

  ghost function Step(side: Side, s: State, e: Event): State
    requires Enabled(side, s, e)
  {
    match e
    case Acquire(op) => s.(writer := Some(Writer(op, s.book, 0)))
    case Advance =>
      var w := s.writer.value;
      var (book, total) := Execute(s.book, s.total, w);
      s.(book := book, total := total, writer := Some(w.(pc := w.pc + 1)))
    case Release => s.(writer := None, log := s.log + [s.writer.value.op])
    case ReadBest(r, price) => s.(readers := s.readers[r := HasPrice(price, |s.log|)])
    case ReadLevel(r) =>
      var HasPrice(price, priceAt) := s.readers[r];
      s.(readers := s.readers[r := HasLevel(price, priceAt, Wrap(Sum(Level(s.book, price))), |s.log|)])
    case LoadTotal(r) =>
      var HasLevel(price, priceAt, quantity, quantityAt) := s.readers[r];
      var during := if s.writer.Some? then Some(s.writer.value.op) else None;
      s.(readers := s.readers[r := HasTotal(price, priceAt, quantity, quantityAt, s.total, |s.log|, during)])
  }

  ghost predicate Legal(side: Side, s: State, events: seq<Event>)
    decreases |events|
  {
    events == [] || (Enabled(side, s, events[0]) && Legal(side, Step(side, s, events[0]), events[1..]))
  }

  ghost function Run(side: Side, s: State, events: seq<Event>): State
    requires Legal(side, s, events)
    decreases |events|
  {
    if events == [] then s else Run(side, Step(side, s, events[0]), events[1..])
  }

  // ---------- Invariant ----------

  /** What the writer still owes the atomic total. */
  function Pending(w: Writer): int {
    if !Hits(w.before, w.op) then 0
    else match w.op
    case New(o) => if w.pc == 1 then o.quantity else 0
    case Cancel(id) => if w.pc == 1 then w.before[id].quantity else 0
    case Replace(o, n) =>
      if w.pc == 1 then w.before[o.id].quantity
      else if w.pc == 2 then w.before[o.id].quantity as int - n.quantity
      else 0
  }

  /** The values an unlocked load may return: the sum before op, the sum after it, or a replacement's halfway value. */
  ghost predicate Loadable(total: Word, before: Book, during: Option<Op>) {
    || total == Wrap(Sum(before))
    || (during.Some? && total == Wrap(Sum(Apply(before, during.value))))
    || (during.Some? && during.value.Replace? && during.value.oldOrder.id in before
        && total == Wrap(Sum(before) - before[during.value.oldOrder.id].quantity))
  }

  ghost function Version(log: seq<Op>, n: nat): Book
    requires n <= |log|
  {
    Replay(map[], log[..n])
  }

  ghost predicate ReaderOk(side: Side, log: seq<Op>, r: Reader) {
    && r.priceAt <= |log|
    && BestPriceIs(side, Version(log, r.priceAt), r.price)
    && (!r.HasPrice? ==>
          && r.priceAt <= r.quantityAt <= |log|
          && r.quantity == Wrap(Sum(Level(Version(log, r.quantityAt), r.price))))
    && (r.HasTotal? ==>
          && r.quantityAt <= r.totalAt <= |log|
          && Loadable(r.total, Version(log, r.totalAt), r.during))
  }

  /** The book and the total after the first pc statements of a critical section. */
  function BookAt(w: Writer): Book {
    if w.pc >= Length(w.before, w.op) || (w.op.New? && w.pc == 1) then Apply(w.before, w.op) else w.before
  }

  /** What the atomic total holds, before wrapping: the sum of the resting quantities less what is pending. */
  ghost function Held(w: Writer): int {
    if !Hits(w.before, w.op) || w.pc == 0 || (w.op.New? && w.pc == 1) then Sum(w.before)
    else if w.op.Replace? && w.pc == 1 then Sum(w.before) - w.before[w.op.oldOrder.id].quantity
    else Sum(Apply(w.before, w.op))
  }

  ghost function TotalAt(w: Writer): Word {
    Wrap(Held(w))
  }

  ghost predicate WriterOk(book: Book, total: Word, w: Writer) {
    Locks(w.op) && w.pc <= Length(w.before, w.op) && book == BookAt(w) && total == TotalAt(w)
  }

  ghost predicate Inv(side: Side, s: State) {
    && (s.writer == None ==> s.book == Replay(map[], s.log) && s.total == Wrap(Sum(s.book)))
    && (s.writer.Some? ==> s.writer.value.before == Replay(map[], s.log) && WriterOk(s.book, s.total, s.writer.value))
    && forall r :: r in s.readers ==> ReaderOk(side, s.log, s.readers[r])
  }

  lemma ExecuteKeepsWriter(book: Book, total: Word, w: Writer)
    requires WriterOk(book, total, w) && w.pc < Length(w.before, w.op)
    ensures var (book', total') := Execute(book, total, w); WriterOk(book', total', w.(pc := w.pc + 1))
  {
    ApplyMovesSum(w.before, w.op);
    var held := Held(w);
    match w.op {
      case New(o) => WrapShift(held, o.quantity);
      case Cancel(id) => WrapShift(held, 0 - w.before[id].quantity as int);
      case Replace(o, n) =>
        WrapShift(held, 0 - w.before[o.id].quantity as int);
        WrapShift(held, n.quantity);
    }
  }

  lemma HeldPlusPending(w: Writer)
    requires Locks(w.op) && w.pc <= Length(w.before, w.op)
    ensures Held(w) + Pending(w) == Sum(BookAt(w))
  {
    ApplyMovesSum(w.before, w.op);
  }

  lemma PendingBalances(w: Writer)
    requires Locks(w.op) && w.pc <= Length(w.before, w.op)
    ensures Wrap(TotalAt(w) + Pending(w)) == Wrap(Sum(BookAt(w)))
  {
    HeldPlusPending(w);
    WrapShift(Held(w), Pending(w));
  }

  lemma MissChangesNothing(before: Book, op: Op)
    requires !Hits(before, op)
    ensures Apply(before, op) == before
  {
  }

  lemma ReplaySnoc(log: seq<Op>, op: Op)
    ensures Replay(map[], log + [op]) == Apply(Replay(map[], log), op)
  {
    assert (log + [op])[..|log|] == log;
  }

  lemma ReaderSurvives(side: Side, log: seq<Op>, r: Reader, op: Op)
    requires ReaderOk(side, log, r)
    ensures ReaderOk(side, log + [op], r)
  {
    assert forall n :: 0 <= n <= |log| ==> (log + [op])[..n] == log[..n];
  }

  lemma AcquireKeepsInv(side: Side, s: State, op: Op)
    requires Inv(side, s) && Enabled(side, s, Acquire(op))
    ensures Inv(side, Step(side, s, Acquire(op)))
  {
  }

  lemma ReleaseKeepsInv(side: Side, s: State)
    requires Inv(side, s) && Enabled(side, s, Release)
    ensures Inv(side, Step(side, s, Release))
  {
    var w := s.writer.value;
    if !Hits(w.before, w.op) {
      MissChangesNothing(w.before, w.op);
    }
    ReplaySnoc(s.log, w.op);
    forall r | r in s.readers
      ensures ReaderOk(side, s.log + [w.op], s.readers[r])
    {
      ReaderSurvives(side, s.log, s.readers[r], w.op);
    }
  }

  lemma ReadKeepsInv(side: Side, s: State, e: Event)
    requires Inv(side, s) && Enabled(side, s, e) && (e.ReadBest? || e.ReadLevel? || e.LoadTotal?)
    ensures Inv(side, Step(side, s, e))
  {
    assert s.log[..|s.log|] == s.log;
    var r := e.reader;
    if r in s.readers {
      assert ReaderOk(side, s.log, s.readers[r]);
    }
    assert ReaderOk(side, s.log, Step(side, s, e).readers[r]);
  }

  lemma StepKeepsInv(side: Side, s: State, e: Event)
    requires Inv(side, s) && Enabled(side, s, e)
    ensures Inv(side, Step(side, s, e))
  {
    match e {
      case Acquire(op) => AcquireKeepsInv(side, s, op);
      case Advance => ExecuteKeepsWriter(s.book, s.total, s.writer.value);
      case Release => ReleaseKeepsInv(side, s);
      case _ => ReadKeepsInv(side, s, e);
    }
  }

  lemma {:induction false} RunKeepsInv(side: Side, s: State, events: seq<Event>)
    requires Inv(side, s) && Legal(side, s, events)
    ensures Inv(side, Run(side, s, events))
    decreases |events|
  {
    if events != [] {
      StepKeepsInv(side, s, events[0]);
      RunKeepsInv(side, Step(side, s, events[0]), events[1..]);
    }
  }

  // ---------- What every interleaving guarantees ----------

  /**
   The total plus what the writer in flight owes it is the sum of the resting quantities modulo 2^64; while the mutex
   is not held exclusively the total is that sum, and the book is the replay of the commands in commit order.
   */
  lemma TotalTracksSum(side: Side, events: seq<Event>)
    requires Legal(side, EMPTY, events)
    ensures var s := Run(side, EMPTY, events);
            && (s.writer.Some? ==> Wrap(s.total + Pending(s.writer.value)) == Wrap(Sum(s.book)))
            && (s.writer == None ==> s.total == Wrap(Sum(s.book)) && s.book == Replay(map[], s.log))
  {
    RunKeepsInv(side, EMPTY, events);
    var s := Run(side, EMPTY, events);
    if s.writer.Some? {
      PendingBalances(s.writer.value);
    }
  }

  /**
   Every finished reader saw committed versions in commit order: the best price of one, the level at that price of a
   later one, and a total that is the sum before or after the command in flight, or a replacement's halfway value.
   */
  lemma ReadersSeeCommittedVersions(side: Side, events: seq<Event>, r: nat)
    requires Legal(side, EMPTY, events)
    requires r in Run(side, EMPTY, events).readers && Run(side, EMPTY, events).readers[r].HasTotal?
    ensures var s := Run(side, EMPTY, events);
            var x := s.readers[r];
            && x.priceAt <= x.quantityAt <= x.totalAt <= |s.log|
            && BestPriceIs(side, Version(s.log, x.priceAt), x.price)
            && x.quantity == Wrap(Sum(Level(Version(s.log, x.quantityAt), x.price)))
            && Loadable(x.total, Version(s.log, x.totalAt), x.during)
  {
    RunKeepsInv(side, EMPTY, events);
  }

  /**
   The early return: a reader saw the empty order exactly if the version it read was empty. With a reader on each side,
   GenerateMDUpdate returns nothing exactly if each side was empty when its best order was read.
   */
  lemma EmptyOrderMeansEmptySide(side: Side, events: seq<Event>, r: nat)
    requires Legal(side, EMPTY, events) && r in Run(side, EMPTY, events).readers
    ensures var s := Run(side, EMPTY, events);
            var x := s.readers[r];
            && x.priceAt <= |s.log|
            && (x.price == 0 <==> Version(s.log, x.priceAt) == map[])
  {
    RunKeepsInv(side, EMPTY, events);
    var s := Run(side, EMPTY, events);
    assert ReaderOk(side, s.log, s.readers[r]);
    ReplayKeepsKeys(map[], s.log[..s.readers[r].priceAt]);
  }

  /** A reader that no writer overlapped reports one committed version exactly. */
  lemma UndisturbedReaderIsExact(side: Side, events: seq<Event>, r: nat)
    requires Legal(side, EMPTY, events)
    requires r in Run(side, EMPTY, events).readers && Run(side, EMPTY, events).readers[r].HasTotal?
    requires var x := Run(side, EMPTY, events).readers[r]; x.priceAt == x.totalAt && x.during == None
    ensures var s := Run(side, EMPTY, events);
            var x := s.readers[r];
            && x.priceAt <= |s.log|
            && Reports(side, Version(s.log, x.priceAt), x.price, x.quantity, x.total)
  {
    ReadersSeeCommittedVersions(side, events, r);
  }

  ghost predicate Leads(side: Side, s: State, events: seq<Event>, t: State) {
    Legal(side, s, events) && Run(side, s, events) == t
  }

  lemma LeadsCons(side: Side, s: State, e: Event, rest: seq<Event>, t: State)
    requires Enabled(side, s, e) && Leads(side, Step(side, s, e), rest, t)
    ensures Leads(side, s, [e] + rest, t)
  {
    assert ([e] + rest)[1..] == rest;
  }

  /** A writer running alone: it takes the mutex, executes its statements and releases. */
  lemma WriterAlone(side: Side, s: State, op: Op, rest: seq<Event>, t: State) returns (events: seq<Event>)
    requires s.writer == None && Locks(op) && Hits(s.book, op) && Length(s.book, op) == 2
    requires s.total == Wrap(Sum(s.book))
    requires var b := Apply(s.book, op);
             Leads(side, s.(book := b, total := Wrap(Sum(b)), log := s.log + [op]), rest, t)
    ensures Leads(side, s, events, t)
  {
    var w := Writer(op, s.book, 0);
    var s1 := Step(side, s, Acquire(op));
    ExecuteKeepsWriter(s1.book, s1.total, w);
    var s2 := Step(side, s1, Advance);
    ExecuteKeepsWriter(s2.book, s2.total, w.(pc := 1));
    var s3 := Step(side, s2, Advance);
    LeadsCons(side, s3, Release, rest, t);
    LeadsCons(side, s2, Advance, [Release] + rest, t);
    LeadsCons(side, s1, Advance, [Advance] + ([Release] + rest), t);
    events := [Acquire(op)] + ([Advance] + ([Advance] + ([Release] + rest)));
    LeadsCons(side, s, Acquire(op), [Advance] + ([Advance] + ([Release] + rest)), t);
  }

  /** A disturbed reader may not: here a bid is cancelled between the two reads, so its price shows an empty level. */
  lemma DisturbedReaderCanTear() returns (events: seq<Event>)
    ensures Legal(Bid, EMPTY, events)
    ensures var x := Run(Bid, EMPTY, events).readers;
            0 in x && x[0].HasTotal? && x[0].price == 100 && x[0].quantity == 0
  {
    var o := Order(1, 100, 10);
    var ops := [New(o), Cancel(1)];
    var full, none: Book := map[1 := o], map[];
    SumWithout(full, 1);
    assert full - {1} == none && Sum(none) == 0;
    assert Level(none, 100) == none;
    assert IsBest(Bid, full[1], full);
    var resting := State(full, 10, None, map[], [New(o)]);
    var priced := Step(Bid, resting, ReadBest(0, 100));
    var empty := priced.(book := none, total := 0, log := ops);
    var leveled := Step(Bid, empty, ReadLevel(0));
    var done := Step(Bid, leveled, LoadTotal(0));
    LeadsCons(Bid, leveled, LoadTotal(0), [], done);
    LeadsCons(Bid, empty, ReadLevel(0), [LoadTotal(0)], done);
    assert Apply(full, Cancel(1)) == none && [New(o)] + [Cancel(1)] == ops;
    var tail := WriterAlone(Bid, priced, Cancel(1), [ReadLevel(0)] + [LoadTotal(0)], done);
    LeadsCons(Bid, resting, ReadBest(0, 100), tail, done);
    assert Apply(none, New(o)) == full && [] + [New(o)] == [New(o)];
    assert EMPTY.(book := full, total := Wrap(Sum(full)), log := [] + [New(o)]) == resting;
    events := WriterAlone(Bid, EMPTY, New(o), [ReadBest(0, 100)] + tail, done);
  }
}
