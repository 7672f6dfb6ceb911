/**
 One command overlapping one reader. A reader that has its best price still reads the level and loads the total; the
 command's critical section can fall anywhere around these two reads. This module says exactly which commands leave
 every such report a report of one version of the side.
 */
module BookOverlap {
  import opened Common
  import opened BookSpec
  import opened OrderBooks
  import opened BookSteps

  /** A price that loses to the best price outright. */
  predicate Behind(side: Side, price: Word, best: Word) {
    if side == Bid then price < best else best < price
  }

  /** The command misses, or it enters or cancels an order strictly behind the best price. */
  predicate Harmless(side: Side, book: Book, best: Word, op: Op) {
    || !Hits(book, op)
    || match op
       case New(o) => book != map[] && Behind(side, o.price, best)
       case Cancel(id) => Behind(side, book[id].price, best)
       case Replace(_, _) => false
  }

  ghost function LevelQuantity(book: Book, price: Word): Word {
    Wrap(Sum(Level(book, price)))
  }

  /** The report is that of the side before the command, or after it. */
  ghost predicate Consistent(side: Side, book: Book, op: Op, price: Word, quantity: Word, total: Word) {
    Reports(side, book, price, quantity, total) || Reports(side, Apply(book, op), price, quantity, total)
  }

  /** What the two reads can return: the old level with the total at any statement of the command, or both new. */
  ghost predicate Placed(book: Book, op: Op, price: Word, quantity: Word, total: Word) {
    || (quantity == LevelQuantity(book, price)
        && exists pc: nat :: pc <= Length(book, op) && total == TotalAt(Writer(op, book, pc)))
    || (quantity == LevelQuantity(Apply(book, op), price) && total == Wrap(Sum(Apply(book, op))))
  }

  // ---------- Values ----------

  lemma WrapDistinct(i: int, d: int)
    requires 0 < d < WORD_MODULUS
    ensures Wrap(i + d) != Wrap(i)
  {
    var q := WrapIsResidue(i);
    var p := WrapIsResidue(i + d);
  }

  lemma LevelWith(book: Book, o: Order)
    requires o.id !in book
    ensures Sum(Level(book[o.id := o], o.price)) == Sum(Level(book, o.price)) + o.quantity
  {
    var level := Level(book, o.price);
    SumWith(level, o);
    assert level - {o.id} == level;
    assert Level(book[o.id := o], o.price) == level[o.id := o];
  }

  lemma LevelWithout(book: Book, id: OrderId)
    requires id in book
    ensures Sum(Level(book, book[id].price)) == Sum(Level(book - {id}, book[id].price)) + book[id].quantity
  {
    var level := Level(book, book[id].price);
    SumWithout(level, id);
    assert level - {id} == Level(book - {id}, book[id].price);
  }

  lemma NewBehindKeepsTop(side: Side, book: Book, price: Word, o: Order)
    requires WellKeyed(book) && BestPriceIs(side, book, price) && book != map[]
    requires o.id !in book && Behind(side, o.price, price)
    ensures BestPriceIs(side, book[o.id := o], price)
    ensures Level(book[o.id := o], price) == Level(book, price)
  {
    var id :| id in book && IsBest(side, book[id], book) && book[id].price == price;
    var after := book[o.id := o];
    assert after[id] == book[id] && Before(side, after[id], o);
    assert IsBest(side, after[id], after);
  }

  lemma CancelBehindKeepsTop(side: Side, book: Book, price: Word, gone: OrderId)
    requires WellKeyed(book) && BestPriceIs(side, book, price)
    requires gone in book && Behind(side, book[gone].price, price)
    ensures BestPriceIs(side, book - {gone}, price)
    ensures Level(book - {gone}, price) == Level(book, price)
  {
    var id :| id in book && IsBest(side, book[id], book) && book[id].price == price;
    var after := book - {gone};
    assert id in after && after[id] == book[id];
    assert IsBest(side, after[id], after);
  }

  /** A harmless command keeps the best price and its level. */
  lemma HarmlessKeepsTop(side: Side, book: Book, price: Word, op: Op)
    requires WellKeyed(book) && BestPriceIs(side, book, price) && Harmless(side, book, price, op)
    ensures BestPriceIs(side, Apply(book, op), price)
    ensures Level(Apply(book, op), price) == Level(book, price)
  {
    if !Hits(book, op) {
      MissChangesNothing(book, op);
    } else if op.New? {
      NewBehindKeepsTop(side, book, price, op.order);
    } else {
      CancelBehindKeepsTop(side, book, price, op.id);
    }
  }

  lemma BestPriceReports(side: Side, book: Book, price: Word)
    requires BestPriceIs(side, book, price)
    ensures Reports(side, book, price, LevelQuantity(book, price), Wrap(Sum(book)))
  {
  }

  lemma HarmlessIsExact(side: Side, book: Book, price: Word, op: Op, quantity: Word, total: Word)
    requires WellKeyed(book) && BestPriceIs(side, book, price) && Locks(op) && Harmless(side, book, price, op)
    requires Placed(book, op, price, quantity, total)
    ensures Consistent(side, book, op, price, quantity, total)
  {
    HarmlessKeepsTop(side, book, price, op);
    BestPriceReports(side, book, price);
    BestPriceReports(side, Apply(book, op), price);
    if quantity == LevelQuantity(book, price) && total != Wrap(Sum(Apply(book, op))) {
      var pc: nat :| pc <= Length(book, op) && total == TotalAt(Writer(op, book, pc));
    }
  }

  /** Where a harmful command tears the report: after its total update, or at a replacement's halfway total. */
  function TearingStatement(op: Op): nat {
    if op.Replace? then 1 else 2
  }

  lemma NewAheadMovesTop(side: Side, book: Book, price: Word, o: Order, best: Order)
    requires BestPriceIs(side, book, price) && Acceptable(o) && o.id !in book
    requires o.price != price && (book == map[] || !Behind(side, o.price, price))
    requires IsBest(side, best, book[o.id := o])
    ensures best.price != price
  {
    assert book[o.id := o][o.id] == o;
    assert best.id == o.id || Before(side, best, o);
  }

  lemma HarmfulNewTears(side: Side, book: Book, price: Word, o: Order)
    requires WellKeyed(book) && BestPriceIs(side, book, price) && Locks(New(o)) && !Harmless(side, book, price, New(o))
    ensures !Consistent(side, book, New(o), price, LevelQuantity(book, price), TotalAt(Writer(New(o), book, 2)))
  {
    var quantity, total := LevelQuantity(book, price), TotalAt(Writer(New(o), book, 2));
    ApplyMovesSum(book, New(o));
    WrapDistinct(Sum(book), o.quantity);
    if o.price == price {
      LevelWith(book, o);
      WrapDistinct(Sum(Level(book, price)), o.quantity);
      TornReport(side, book, New(o), price, quantity, total);
    } else {
      forall best | IsBest(side, best, book[o.id := o])
        ensures best.price != price
      {
        NewAheadMovesTop(side, book, price, o, best);
      }
      assert !Reports(side, book[o.id := o], price, quantity, total);
    }
  }

  lemma NotBehindIsAtTop(side: Side, book: Book, price: Word, id: OrderId)
    requires WellKeyed(book) && BestPriceIs(side, book, price) && id in book && !Behind(side, book[id].price, price)
    ensures book[id].price == price
  {
    var best :| best in book && IsBest(side, book[best], book) && book[best].price == price;
    assert id == best || Before(side, book[best], book[id]);
  }

  lemma HarmfulCancelTears(side: Side, book: Book, price: Word, id: OrderId)
    requires WellKeyed(book) && BestPriceIs(side, book, price) && !Harmless(side, book, price, Cancel(id))
    ensures !Consistent(side, book, Cancel(id), price, LevelQuantity(book, price), TotalAt(Writer(Cancel(id), book, 2)))
  {
    var o, after := book[id], Apply(book, Cancel(id));
    ApplyMovesSum(book, Cancel(id));
    WrapDistinct(Sum(after), o.quantity);
    NotBehindIsAtTop(side, book, price, id);
    LevelWithout(book, id);
    WrapDistinct(Sum(Level(after, price)), o.quantity);
    TornReport(side, book, Cancel(id), price, LevelQuantity(book, price), TotalAt(Writer(Cancel(id), book, 2)));
  }

  /** A total that is not the old one with a level that is not the new one reports neither version. */
  lemma TornReport(side: Side, book: Book, op: Op, price: Word, quantity: Word, total: Word)
    requires total != Wrap(Sum(book)) && quantity != LevelQuantity(Apply(book, op), price)
    ensures !Consistent(side, book, op, price, quantity, total)
  {
  }

  lemma HarmfulReplaceTears(side: Side, book: Book, price: Word, o: Order, n: Order)
    requires Locks(Replace(o, n)) && Hits(book, Replace(o, n)) && WellKeyed(book)
    ensures var op := Replace(o, n);
            !Consistent(side, book, op, price, LevelQuantity(book, price), TotalAt(Writer(op, book, 1)))
  {
    var halfway := Sum(book) - book[o.id].quantity;
    ApplyMovesSum(book, Replace(o, n));
    WrapDistinct(halfway, book[o.id].quantity);
    WrapDistinct(halfway, n.quantity);
  }

  lemma HarmfulTears(side: Side, book: Book, price: Word, op: Op)
    requires WellKeyed(book) && BestPriceIs(side, book, price) && Locks(op) && !Harmless(side, book, price, op)
    ensures var pc := TearingStatement(op);
            && pc <= Length(book, op)
            && !Consistent(side, book, op, price, LevelQuantity(book, price), TotalAt(Writer(op, book, pc)))
  {
    match op {
      case New(o) => HarmfulNewTears(side, book, price, o);
      case Cancel(id) => HarmfulCancelTears(side, book, price, id);
      case Replace(o, n) => HarmfulReplaceTears(side, book, price, o, n);
    }
  }

  // ---------- Runs ----------

  /** The command's critical section and the reader's two reads, in some order, are all that happens. */
  ghost predicate Overlap(side: Side, s: State, events: seq<Event>, op: Op, r: nat) {
    && Legal(side, s, events)
    && (forall i :: 0 <= i < |events| ==>
          events[i] in {Acquire(op), Advance, Release, ReadLevel(r), LoadTotal(r)})
    && (forall i, j :: 0 <= i < j < |events| && events[i].Acquire? ==> !events[j].Acquire?)
    && r in Run(side, s, events).readers && Run(side, s, events).readers[r].HasTotal?
  }

  /** How far the overlapping command has come, and what the reader can have gathered by then. */
  ghost predicate Midway(s: State, book: Book, op: Op, r: nat, price: Word, acquired: bool) {
    var done := acquired && s.writer == None;
    && (!acquired ==> s.writer == None && s.book == book && s.total == Wrap(Sum(book)))
    && (s.writer.Some? ==>
          s.writer.value.op == op && s.writer.value.before == book && WriterOk(s.book, s.total, s.writer.value))
    && (done ==> s.book == Apply(book, op) && s.total == Wrap(Sum(Apply(book, op))))
    && r in s.readers && s.readers[r].price == price
    && (s.readers[r].HasLevel? ==>
          || s.readers[r].quantity == LevelQuantity(book, price)
          || (done && s.readers[r].quantity == LevelQuantity(Apply(book, op), price)))
    && (s.readers[r].HasTotal? ==> Placed(book, op, price, s.readers[r].quantity, s.readers[r].total))
  }

  lemma EndsOfTotal(book: Book, op: Op)
    ensures TotalAt(Writer(op, book, 0)) == Wrap(Sum(book))
    ensures TotalAt(Writer(op, book, Length(book, op))) == Wrap(Sum(Apply(book, op)))
    ensures BookAt(Writer(op, book, Length(book, op))) == Apply(book, op)
  {
    if !Hits(book, op) {
      MissChangesNothing(book, op);
    }
  }

  lemma WriterMidway(side: Side, s: State, book: Book, op: Op, r: nat, price: Word, acquired: bool, e: Event)
    requires Locks(op) && Midway(s, book, op, r, price, acquired) && Enabled(side, s, e)
    requires e in {Acquire(op), Advance, Release} && (e.Acquire? ==> !acquired)
    ensures Midway(Step(side, s, e), book, op, r, price, acquired || e.Acquire?)
  {
    EndsOfTotal(book, op);
    match e {
      case Acquire(_) =>
        if !Hits(book, op) {
          MissChangesNothing(book, op);
        }
      case Advance => ExecuteKeepsWriter(s.book, s.total, s.writer.value);
      case Release =>
    }
  }

  lemma LoadMidway(side: Side, s: State, book: Book, op: Op, r: nat, price: Word, acquired: bool)
    requires Midway(s, book, op, r, price, acquired) && Enabled(side, s, LoadTotal(r))
    ensures Midway(Step(side, s, LoadTotal(r)), book, op, r, price, acquired)
  {
    EndsOfTotal(book, op);
    var pc := if !acquired then 0 else if s.writer.Some? then s.writer.value.pc else Length(book, op);
    assert s.total == TotalAt(Writer(op, book, pc));
    assert Placed(book, op, price, s.readers[r].quantity, s.total);
  }

  lemma StepMidway(side: Side, s: State, book: Book, op: Op, r: nat, price: Word, acquired: bool, e: Event)
    requires Locks(op) && Midway(s, book, op, r, price, acquired) && Enabled(side, s, e)
    requires e in {Acquire(op), Advance, Release, ReadLevel(r), LoadTotal(r)} && (e.Acquire? ==> !acquired)
    ensures Midway(Step(side, s, e), book, op, r, price, acquired || e.Acquire?)
  {
    if e.LoadTotal? {
      LoadMidway(side, s, book, op, r, price, acquired);
    } else if e.ReadLevel? {
    } else {
      WriterMidway(side, s, book, op, r, price, acquired, e);
    }
  }

  lemma {:induction false} OverlapPlaces(
      side: Side, s: State, events: seq<Event>, book: Book, op: Op, r: nat, price: Word, acquired: bool)
    requires Locks(op) && Midway(s, book, op, r, price, acquired) && Overlap(side, s, events, op, r)
    requires acquired ==> forall i :: 0 <= i < |events| ==> !events[i].Acquire?
    ensures exists now :: Midway(Run(side, s, events), book, op, r, price, now)
    decreases |events|
  {
    if events != [] {
      var e, rest := events[0], events[1..];
      StepMidway(side, s, book, op, r, price, acquired, e);
      assert forall i :: 0 <= i < |rest| ==> rest[i] == events[i + 1];
      OverlapPlaces(side, Step(side, s, e), rest, book, op, r, price, acquired || e.Acquire?);
    }
  }

  /** The commands that take the mutex in a run, in order. */
  function Commands(events: seq<Event>): seq<Op> {
    if events == [] then []
    else (if events[0].Acquire? then [events[0].op] else []) + Commands(events[1..])
  }

  lemma CommandsCons(e: Event, rest: seq<Event>)
    ensures Commands([e] + rest) == (if e.Acquire? then [e.op] else []) + Commands(rest)
  {
    assert ([e] + rest)[1..] == rest;
  }

  /** The writer executes up to statement pc; then the reader loads. */
  lemma {:induction false} AdvanceThenLoad(side: Side, s: State, r: nat, pc: nat) returns (events: seq<Event>)
    requires s.writer.Some? && WriterOk(s.book, s.total, s.writer.value)
    requires s.writer.value.pc <= pc <= Length(s.writer.value.before, s.writer.value.op)
    requires r in s.readers && s.readers[r].HasLevel?
    ensures Legal(side, s, events) && forall i :: 0 <= i < |events| ==> events[i] in {Advance, LoadTotal(r)}
    ensures var t := Run(side, s, events);
            && r in t.readers && t.readers[r].HasTotal?
            && t.readers[r].price == s.readers[r].price && t.readers[r].quantity == s.readers[r].quantity
            && t.readers[r].total == TotalAt(s.writer.value.(pc := pc))
            && t.readers[r].totalAt == |s.log| && t.readers[r].during == Some(s.writer.value.op)
            && t.log == s.log
    ensures Commands(events) == []
    decreases pc - s.writer.value.pc
  {
    if s.writer.value.pc == pc {
      events := [LoadTotal(r)];
      assert events[1..] == [];
    } else {
      ExecuteKeepsWriter(s.book, s.total, s.writer.value);
      var rest := AdvanceThenLoad(side, Step(side, s, Advance), r, pc);
      events := [Advance] + rest;
      assert events[1..] == rest;
      CommandsCons(Advance, rest);
    }
  }

  /** Every statement of the command can be the one at which the reader loads. */
  lemma RealizePlacement(side: Side, s: State, op: Op, r: nat, pc: nat) returns (events: seq<Event>)
    requires s.writer == None && s.total == Wrap(Sum(s.book)) && Locks(op) && pc <= Length(s.book, op)
    requires r in s.readers && s.readers[r].HasPrice?
    ensures Overlap(side, s, events, op, r)
    ensures var x := Run(side, s, events).readers[r];
            && x.price == s.readers[r].price && x.quantity == LevelQuantity(s.book, x.price)
            && x.total == TotalAt(Writer(op, s.book, pc)) && x.totalAt == |s.log| && x.during == Some(op)
    ensures Run(side, s, events).log == s.log && Commands(events) == [op]
  {
    var s1 := Step(side, s, ReadLevel(r));
    var s2 := Step(side, s1, Acquire(op));
    EndsOfTotal(s.book, op);
    assert WriterOk(s2.book, s2.total, s2.writer.value) by {
      if !Hits(s.book, op) {
        MissChangesNothing(s.book, op);
      }
    }
    var rest := AdvanceThenLoad(side, s2, r, pc);
    events := [ReadLevel(r)] + ([Acquire(op)] + rest);
    assert ([Acquire(op)] + rest)[1..] == rest && events[1..] == [Acquire(op)] + rest;
    CommandsCons(Acquire(op), rest);
    CommandsCons(ReadLevel(r), [Acquire(op)] + rest);
  }

  ghost predicate ReportsOneVersion(side: Side, s: State, events: seq<Event>, op: Op, r: nat)
    requires Overlap(side, s, events, op, r)
  {
    var x := Run(side, s, events).readers[r];
    Consistent(side, s.book, op, x.price, x.quantity, x.total)
  }

  /**
   Exactly the harmless commands may overlap a reader: from any reachable state in which reader r has just read its best
   price, every interleaving of op with the reader's remaining reads reports the side before or after op if and only if
   op misses, or enters or cancels an order strictly behind that price.
   */
  lemma OverlapExactIffHarmless(side: Side, before: seq<Event>, op: Op, r: nat)
    requires Legal(side, EMPTY, before) && Locks(op)
    requires var s := Run(side, EMPTY, before);
             s.writer == None && r in s.readers && s.readers[r].HasPrice? && s.readers[r].priceAt == |s.log|
    ensures var s := Run(side, EMPTY, before);
            (forall events :: Overlap(side, s, events, op, r) ==> ReportsOneVersion(side, s, events, op, r))
            <==> Harmless(side, s.book, s.readers[r].price, op)
  {
    RunKeepsInv(side, EMPTY, before);
    var s := Run(side, EMPTY, before);
    var price := s.readers[r].price;
    assert s.log[..|s.log|] == s.log;
    ReplayKeepsKeys(map[], s.log);
    if Harmless(side, s.book, price, op) {
      forall events | Overlap(side, s, events, op, r)
        ensures ReportsOneVersion(side, s, events, op, r)
      {
        OverlapPlaces(side, s, events, s.book, op, r, price, false);
        var x := Run(side, s, events).readers[r];
        HarmlessIsExact(side, s.book, price, op, x.quantity, x.total);
      }
    } else {
      HarmfulTears(side, s.book, price, op);
      var events := RealizePlacement(side, s, op, r, TearingStatement(op));
      assert !ReportsOneVersion(side, s, events, op, r);
    }
  }
}
