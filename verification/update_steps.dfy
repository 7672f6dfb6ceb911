/**
 GenerateMDUpdate on both sides of a concurrent book. Each side runs as in BookSteps, with its own mutex and total; an
 update reads the best bid, the best ask, the bid level, the ask level, the bid total and the ask total, in this order.
 One log records the commits of both sides, so that the six reads can be placed in one sequence of versions.
 */
module UpdateSteps {
  import opened Common
  import opened BookSpec
  import opened OrderBooks
  import B = BookSteps
  import BookOverlap
  import O = OverlapRuns

  datatype Commit = Commit(side: Side, op: Op)

  datatype State = State(
    bids: B.State,
    asks: B.State,
    log: seq<Commit>,             // commands of both sides whose critical section is over, oldest first
    updates: map<nat, seq<nat>>)  // of each update, the length of the log at each of its reads so far

  datatype Event =
    | Write(side: Side, step: B.Event)
    | Read(update: nat, price: Word)  // the update's next read; price is what a best-order read finds

  const EMPTY := State(B.EMPTY, B.EMPTY, [], map[])

  const READS := 6

  function ReadSide(k: nat): Side {
    if k % 2 == 0 then Bid else Ask
  }

  function ReadStep(k: nat, update: nat, price: Word): B.Event {
    if k < 2 then B.ReadBest(update, price)
    else if k < 4 then B.ReadLevel(update)
    else B.LoadTotal(update)
  }

  function OfSide(s: State, side: Side): B.State {
    if side == Bid then s.bids else s.asks
  }

  function WithSide(s: State, side: Side, b: B.State): State {
    if side == Bid then s.(bids := b) else s.(asks := b)
  }

  function Times(s: State, update: nat): seq<nat> {
    if update in s.updates then s.updates[update] else []
  }

  /** Both best orders were the empty one: the update returns nothing, and reads no further. */
  predicate ReturnsNothing(s: State, update: nat) {
    && |Times(s, update)| == 2
    && update in s.bids.readers && s.bids.readers[update].price == 0
    && update in s.asks.readers && s.asks.readers[update].price == 0
  }

  ghost predicate Enabled(s: State, e: Event) {
    match e
    case Write(side, step) =>
      (step.Acquire? || step.Advance? || step.Release?) && B.Enabled(side, OfSide(s, side), step)
    case Read(u, price) =>
      var k := |Times(s, u)|;
      && k < READS && !ReturnsNothing(s, u)
      && B.Enabled(ReadSide(k), OfSide(s, ReadSide(k)), ReadStep(k, u, price))
  }

  ghost function Step(s: State, e: Event): State
    requires Enabled(s, e)
  {
    match e
    case Write(side, step) =>
      var b := OfSide(s, side);
      var committed := if step.Release? then [Commit(side, b.writer.value.op)] else [];
      WithSide(s, side, B.Step(side, b, step)).(log := s.log + committed)
    case Read(u, price) =>
      var k := |Times(s, u)|;
      var b := OfSide(s, ReadSide(k));
      WithSide(s, ReadSide(k), B.Step(ReadSide(k), b, ReadStep(k, u, price)))
        .(updates := s.updates[u := Times(s, u) + [|s.log|]])
  }

  ghost predicate Legal(s: State, events: seq<Event>)
    decreases |events|
  {
    events == [] || (Enabled(s, events[0]) && Legal(Step(s, events[0]), events[1..]))
  }

  ghost function Run(s: State, events: seq<Event>): State
    requires Legal(s, events)
    decreases |events|
  {
    if events == [] then s else Run(Step(s, events[0]), events[1..])
  }

  // ---------- Versions of one side in the common log ----------

  function Only(log: seq<Commit>, side: Side): seq<Op> {
    if log == [] then []
    else
      var front, last := Only(log[..|log| - 1], side), log[|log| - 1];
      if last.side == side then front + [last.op] else front
  }

  function Count(log: seq<Commit>, n: nat, side: Side): nat
    requires n <= |log|
  {
    |Only(log[..n], side)|
  }

  /** The side after the first n commits of the common log. */
  ghost function SideAt(log: seq<Commit>, n: nat, side: Side): Book
    requires n <= |log|
  {
    Replay(map[], Only(log[..n], side))
  }

  lemma OnlySnoc(log: seq<Commit>, c: Commit, side: Side)
    ensures Only(log + [c], side) == Only(log, side) + if c.side == side then [c.op] else []
  {
    assert (log + [c])[..|log|] == log;
  }

  lemma {:induction false} OnlyPrefix(log: seq<Commit>, n: nat, side: Side)
    requires n <= |log|
    ensures Only(log[..n], side) <= Only(log, side)
    decreases |log|
  {
    if n < |log| {
      OnlyPrefix(log[..|log| - 1], n, side);
      assert log[..|log| - 1][..n] == log[..n];
    } else {
      assert log[..n] == log;
    }
  }

  /** The side's own version numbers count its commands in the common log. */
  lemma VersionIsSideAt(log: seq<Commit>, n: nat, side: Side)
    requires n <= |log|
    ensures Count(log, n, side) <= |Only(log, side)|
    ensures B.Version(Only(log, side), Count(log, n, side)) == SideAt(log, n, side)
  {
    OnlyPrefix(log, n, side);
    assert Only(log, side)[..Count(log, n, side)] == Only(log[..n], side);
  }

  lemma CountOrdered(log: seq<Commit>, m: nat, n: nat, side: Side)
    requires m <= n <= |log|
    ensures Count(log, m, side) <= Count(log, n, side)
  {
    OnlyPrefix(log[..n], m, side);
    assert log[..n][..m] == log[..m];
  }

  // ---------- Invariant ----------

  ghost predicate Ordered(times: seq<nat>, now: nat) {
    && (forall i, j :: 0 <= i <= j < |times| ==> times[i] <= times[j])
    && (forall i :: 0 <= i < |times| ==> times[i] <= now)
  }

  /** The index of the first read on a side among an update's reads; its later ones follow two and four reads after. */
  function First(side: Side): nat {
    if side == Bid then 0 else 1
  }

  /** What the side's reader has gathered, it gathered at the update's times. */
  ghost predicate ReaderAt(log: seq<Commit>, times: seq<nat>, side: Side, x: B.Reader)
    requires Ordered(times, |log|) && |times| > First(side)
  {
    var k := First(side);
    && x.priceAt == Count(log, times[k], side)
    && (x.HasPrice? <==> |times| <= k + 2)
    && (|times| > k + 2 ==> x.quantityAt == Count(log, times[k + 2], side))
    && (x.HasTotal? <==> |times| > k + 4)
    && (|times| > k + 4 ==> x.totalAt == Count(log, times[k + 4], side))
  }

  ghost predicate UpdateOk(s: State, update: nat, side: Side) {
    var times := Times(s, update);
    && Ordered(times, |s.log|)
    && (|times| > First(side) ==>
          update in OfSide(s, side).readers && ReaderAt(s.log, times, side, OfSide(s, side).readers[update]))
  }

  ghost predicate SideOk(s: State, side: Side) {
    && B.Inv(side, OfSide(s, side))
    && OfSide(s, side).log == Only(s.log, side)
    && forall u :: UpdateOk(s, u, side)
  }

  ghost predicate Inv(s: State) {
    SideOk(s, Bid) && SideOk(s, Ask)
  }

  lemma CountSurvives(log: seq<Commit>, more: seq<Commit>, n: nat, side: Side)
    requires n <= |log|
    ensures Count(log + more, n, side) == Count(log, n, side)
  {
    assert (log + more)[..n] == log[..n];
  }

  lemma UpdateSurvives(log: seq<Commit>, more: seq<Commit>, times: seq<nat>, side: Side, x: B.Reader)
    requires Ordered(times, |log|) && |times| > First(side) && ReaderAt(log, times, side, x)
    ensures Ordered(times, |log + more|) && ReaderAt(log + more, times, side, x)
  {
    forall i | 0 <= i < |times|
      ensures Count(log + more, times[i], side) == Count(log, times[i], side)
    {
      CountSurvives(log, more, times[i], side);
    }
  }

  lemma CommitsFollow(s: State, e: Event, side: Side)
    requires Enabled(s, e) && e.Write? && OfSide(s, side).log == Only(s.log, side)
    ensures OfSide(Step(s, e), side).log == Only(Step(s, e).log, side)
  {
    if e.step.Release? {
      OnlySnoc(s.log, Commit(e.side, OfSide(s, e.side).writer.value.op), side);
      assert Only(s.log, side) + [] == Only(s.log, side);
    } else {
      assert s.log + [] == s.log;
    }
  }

  lemma WriteKeepsUpdate(s: State, e: Event, side: Side, u: nat)
    requires UpdateOk(s, u, side) && Enabled(s, e) && e.Write?
    ensures UpdateOk(Step(s, e), u, side)
  {
    var t := Step(s, e);
    var committed := if e.step.Release? then [Commit(e.side, OfSide(s, e.side).writer.value.op)] else [];
    assert t.log == s.log + committed && Times(t, u) == Times(s, u);
    assert OfSide(t, side).readers == OfSide(s, side).readers;
    if |Times(s, u)| > First(side) {
      UpdateSurvives(s.log, committed, Times(s, u), side, OfSide(s, side).readers[u]);
    }
  }

  lemma WriteKeepsSide(s: State, e: Event, side: Side)
    requires Enabled(s, e) && e.Write? && SideOk(s, side) && SideOk(s, e.side)
    ensures SideOk(Step(s, e), side)
  {
    B.StepKeepsInv(e.side, OfSide(s, e.side), e.step);
    CommitsFollow(s, e, side);
    forall u
      ensures UpdateOk(Step(s, e), u, side)
    {
      WriteKeepsUpdate(s, e, side, u);
    }
  }

  lemma OrderedNow(times: seq<nat>, now: nat)
    requires Ordered(times, now)
    ensures Ordered(times + [now], now)
  {
  }

  /** A read of the other side is none of this side's. */
  lemma OtherSideReads(log: seq<Commit>, times: seq<nat>, side: Side, x: B.Reader)
    requires Ordered(times, |log|) && First(side) < |times| < READS && ReaderAt(log, times, side, x)
    requires ReadSide(|times|) != side
    ensures Ordered(times + [|log|], |log|) && ReaderAt(log, times + [|log|], side, x)
  {
    OrderedNow(times, |log|);
  }

  lemma BestOrderReads(log: seq<Commit>, times: seq<nat>, side: Side, x: B.Reader)
    requires Ordered(times, |log|) && |times| == First(side)
    requires x.HasPrice? && x.priceAt == Count(log, |log|, side)
    ensures Ordered(times + [|log|], |log|) && ReaderAt(log, times + [|log|], side, x)
  {
    OrderedNow(times, |log|);
  }

  lemma LevelReads(log: seq<Commit>, times: seq<nat>, side: Side, x: B.Reader, y: B.Reader)
    requires Ordered(times, |log|) && |times| == First(side) + 2 && ReaderAt(log, times, side, x)
    requires y.HasLevel? && y.priceAt == x.priceAt && y.quantityAt == Count(log, |log|, side)
    ensures Ordered(times + [|log|], |log|) && ReaderAt(log, times + [|log|], side, y)
  {
    OrderedNow(times, |log|);
  }

  lemma TotalReads(log: seq<Commit>, times: seq<nat>, side: Side, x: B.Reader, y: B.Reader)
    requires Ordered(times, |log|) && |times| == First(side) + 4 && ReaderAt(log, times, side, x)
    requires y.HasTotal? && y.priceAt == x.priceAt && y.quantityAt == x.quantityAt
    requires y.totalAt == Count(log, |log|, side)
    ensures Ordered(times + [|log|], |log|) && ReaderAt(log, times + [|log|], side, y)
  {
    OrderedNow(times, |log|);
  }

  /** The side's own next read is made at the current length of the log. */
  lemma OwnSideReads(log: seq<Commit>, times: seq<nat>, side: Side, b: B.State, u: nat, price: Word)
    requires Ordered(times, |log|) && |times| < READS && ReadSide(|times|) == side && b.log == Only(log, side)
    requires |times| > First(side) ==> u in b.readers && ReaderAt(log, times, side, b.readers[u])
    requires B.Enabled(side, b, ReadStep(|times|, u, price))
    ensures var c := B.Step(side, b, ReadStep(|times|, u, price));
            && Ordered(times + [|log|], |log|) && u in c.readers
            && ReaderAt(log, times + [|log|], side, c.readers[u])
  {
    assert log[..|log|] == log;
    var c := B.Step(side, b, ReadStep(|times|, u, price));
    if |times| < 2 {
      BestOrderReads(log, times, side, c.readers[u]);
    } else if |times| < 4 {
      LevelReads(log, times, side, b.readers[u], c.readers[u]);
    } else {
      TotalReads(log, times, side, b.readers[u], c.readers[u]);
    }
  }

  lemma ReadChangesOneSide(s: State, e: Event, side: Side)
    requires Enabled(s, e) && e.Read?
    ensures var k, t := |Times(s, e.update)|, Step(s, e);
            && t.log == s.log && Times(t, e.update) == Times(s, e.update) + [|s.log|]
            && OfSide(t, side) == if ReadSide(k) == side
                                  then B.Step(side, OfSide(s, side), ReadStep(k, e.update, e.price))
                                  else OfSide(s, side)
  {
  }

  lemma ReadKeepsUpdate(s: State, e: Event, side: Side)
    requires SideOk(s, side) && Enabled(s, e) && e.Read?
    ensures UpdateOk(Step(s, e), e.update, side)
  {
    var times := Times(s, e.update);
    assert UpdateOk(s, e.update, side);
    ReadChangesOneSide(s, e, side);
    OrderedNow(times, |s.log|);
    if ReadSide(|times|) == side {
      OwnSideReads(s.log, times, side, OfSide(s, side), e.update, e.price);
    } else if |times| > First(side) {
      OtherSideReads(s.log, times, side, OfSide(s, side).readers[e.update]);
    }
  }

  lemma ReadKeepsOthers(s: State, e: Event, side: Side, u: nat)
    requires UpdateOk(s, u, side) && Enabled(s, e) && e.Read? && u != e.update
    ensures UpdateOk(Step(s, e), u, side)
  {
  }

  lemma ReadKeepsSide(s: State, e: Event, side: Side)
    requires Inv(s) && Enabled(s, e) && e.Read?
    ensures SideOk(Step(s, e), side)
  {
    var k := |Times(s, e.update)|;
    B.StepKeepsInv(ReadSide(k), OfSide(s, ReadSide(k)), ReadStep(k, e.update, e.price));
    forall u
      ensures UpdateOk(Step(s, e), u, side)
    {
      if u == e.update {
        ReadKeepsUpdate(s, e, side);
      } else {
        ReadKeepsOthers(s, e, side, u);
      }
    }
  }

  lemma StepKeepsInv(s: State, e: Event)
    requires Inv(s) && Enabled(s, e)
    ensures Inv(Step(s, e))
  {
    if e.Write? {
      WriteKeepsSide(s, e, Bid);
      WriteKeepsSide(s, e, Ask);
    } else {
      ReadKeepsSide(s, e, Bid);
      ReadKeepsSide(s, e, Ask);
    }
  }

  lemma {:induction false} RunKeepsInv(s: State, events: seq<Event>)
    requires Inv(s) && Legal(s, events)
    ensures Inv(Run(s, events))
    decreases |events|
  {
    if events != [] {
      StepKeepsInv(s, events[0]);
      RunKeepsInv(Step(s, events[0]), events[1..]);
    }
  }

  // ---------- What an update reports ----------

  /** A finished update's three values of one side, read at those of its times that belong to the side. */
  ghost predicate ReadFrom(log: seq<Commit>, times: seq<nat>, side: Side, x: B.Reader)
    requires Ordered(times, |log|) && |times| == READS
  {
    var k := First(side);
    && x.HasTotal?
    && B.BestPriceIs(side, SideAt(log, times[k], side), x.price)
    && x.quantity == Wrap(Sum(Level(SideAt(log, times[k + 2], side), x.price)))
    && B.Loadable(x.total, SideAt(log, times[k + 4], side), x.during)
  }

  lemma ReaderReadFrom(log: seq<Commit>, times: seq<nat>, side: Side, x: B.Reader)
    requires Ordered(times, |log|) && |times| == READS && ReaderAt(log, times, side, x)
    requires B.ReaderOk(side, Only(log, side), x)
    ensures ReadFrom(log, times, side, x)
  {
    var k := First(side);
    VersionIsSideAt(log, times[k], side);
    VersionIsSideAt(log, times[k + 2], side);
    VersionIsSideAt(log, times[k + 4], side);
  }

  lemma SideReadFrom(s: State, update: nat, side: Side)
    requires Inv(s) && |Times(s, update)| == READS
    ensures Ordered(Times(s, update), |s.log|) && update in OfSide(s, side).readers
    ensures ReadFrom(s.log, Times(s, update), side, OfSide(s, side).readers[update])
  {
    assert UpdateOk(s, update, side);
    assert B.ReaderOk(side, OfSide(s, side).log, OfSide(s, side).readers[update]);
    ReaderReadFrom(s.log, Times(s, update), side, OfSide(s, side).readers[update]);
  }

  /**
   In every run the six reads of a finished update see versions of one sequence of commits of both sides, in the order
   in which they are made: best bid, best ask, bid level, ask level, bid total, ask total.
   */
  lemma UpdateReadsInCommitOrder(events: seq<Event>, update: nat)
    requires Legal(EMPTY, events) && |Times(Run(EMPTY, events), update)| == READS
    ensures var s := Run(EMPTY, events);
            var times := Times(s, update);
            && times[0] <= times[1] <= times[2] <= times[3] <= times[4] <= times[5] <= |s.log|
            && update in s.bids.readers && update in s.asks.readers
            && Ordered(times, |s.log|)
            && ReadFrom(s.log, times, Bid, s.bids.readers[update])
            && ReadFrom(s.log, times, Ask, s.asks.readers[update])
  {
    EmptyInv();
    RunKeepsInv(EMPTY, events);
    SideReadFrom(Run(EMPTY, events), update, Bid);
    SideReadFrom(Run(EMPTY, events), update, Ask);
  }

  lemma EmptyInv()
    ensures Inv(EMPTY)
  {
  }

  /**
   An update returns nothing exactly if the bids were empty when their best order was read, and the asks when theirs
   was, which may be later.
   */
  lemma NothingIffEachEmpty(events: seq<Event>, update: nat)
    requires Legal(EMPTY, events) && |Times(Run(EMPTY, events), update)| == 2
    ensures var s := Run(EMPTY, events);
            var times := Times(s, update);
            && times[0] <= times[1] <= |s.log|
            && (ReturnsNothing(s, update) <==>
                  SideAt(s.log, times[0], Bid) == map[] && SideAt(s.log, times[1], Ask) == map[])
  {
    EmptyInv();
    RunKeepsInv(EMPTY, events);
    var s := Run(EMPTY, events);
    PriceZeroIffEmpty(s, update, Bid);
    PriceZeroIffEmpty(s, update, Ask);
  }

  lemma PriceZeroIffEmpty(s: State, update: nat, side: Side)
    requires Inv(s) && |Times(s, update)| > First(side)
    ensures Ordered(Times(s, update), |s.log|) && update in OfSide(s, side).readers
    ensures OfSide(s, side).readers[update].price == 0 <==>
              SideAt(s.log, Times(s, update)[First(side)], side) == map[]
  {
    assert UpdateOk(s, update, side);
    var log, n := OfSide(s, side).log, Times(s, update)[First(side)];
    assert B.ReaderOk(side, log, OfSide(s, side).readers[update]);
    VersionIsSideAt(s.log, n, side);
    ReplayKeepsKeys(map[], Only(s.log[..n], side));
  }

  lemma QuietSide(log: seq<Commit>, times: seq<nat>, side: Side, x: B.Reader)
    requires Ordered(times, |log|) && |times| == READS && ReadFrom(log, times, side, x)
    requires times[READS - 1] == times[0] && x.during == None
    ensures Reports(side, SideAt(log, times[0], side), x.price, x.quantity, x.total)
  {
    assert forall i :: 0 <= i < READS ==> times[i] == times[0];
  }

  /** An update during which nothing commits, and whose loads meet no writer, reports one version of the whole book. */
  lemma QuietUpdateIsOneVersion(events: seq<Event>, update: nat)
    requires Legal(EMPTY, events) && |Times(Run(EMPTY, events), update)| == READS
    ensures var s := Run(EMPTY, events);
            && update in s.bids.readers && update in s.asks.readers
            && var n, b, a := Times(s, update)[0], s.bids.readers[update], s.asks.readers[update];
            && n <= |s.log| && b.HasTotal? && a.HasTotal?
            && (Times(s, update)[READS - 1] == n && b.during == None && a.during == None ==>
                  && Reports(Bid, SideAt(s.log, n, Bid), b.price, b.quantity, b.total)
                  && Reports(Ask, SideAt(s.log, n, Ask), a.price, a.quantity, a.total))
  {
    UpdateReadsInCommitOrder(events, update);
    var s := Run(EMPTY, events);
    var times, b, a := Times(s, update), s.bids.readers[update], s.asks.readers[update];
    if times[READS - 1] == times[0] && b.during == None && a.during == None {
      QuietSide(s.log, times, Bid, b);
      QuietSide(s.log, times, Ask, a);
    }
  }
  // ---------- Best bid and best ask of one version ----------

  lemma {:induction false} BestExists(side: Side, book: Book) returns (best: OrderId)
    requires WellKeyed(book) && book != map[]
    ensures best in book && IsBest(side, book[best], book)
    decreases |book|
  {
    var id :| id in book;
    var rest := book - {id};
    best := id;
    if rest != map[] {
      RemoveSmaller(book, id);
      var other := BestExists(side, rest);
      assert rest[other] == book[other];
      best := if Before(side, book[id], book[other]) then id else other;
      forall i | i in book && i != best
        ensures Before(side, book[best], book[i])
      {
        assert i != id ==> i in rest && rest[i] == book[i];
      }
    }
  }

  /** A price that beats the best price. */
  predicate Ahead(side: Side, price: Word, best: Word) {
    BookOverlap.Behind(side, best, price)
  }

  ghost predicate SomeAt(book: Book, price: Word) {
    exists id :: id in book && book[id].price == price
  }

  ghost predicate NoneAhead(side: Side, book: Book, price: Word) {
    forall id :: id in book ==> !Ahead(side, book[id].price, price)
  }

  lemma BestPriceIff(side: Side, book: Book, price: Word)
    requires WellKeyed(book) && book != map[]
    ensures B.BestPriceIs(side, book, price) <==> SomeAt(book, price) && NoneAhead(side, book, price)
  {
    var best := BestExists(side, book);
    if SomeAt(book, price) && NoneAhead(side, book, price) {
      var id :| id in book && book[id].price == price;
      assert id == best || Before(side, book[best], book[id]);
    }
  }

  /**
   The command misses; or it enters an order not ahead of the best price, leaves another order there, or moves an order
   there.
   */
  ghost predicate KeepsBest(side: Side, book: Book, price: Word, op: Op) {
    || !B.Locks(op) || !B.Hits(book, op)
    || match op
       case New(o) => book != map[] && !Ahead(side, o.price, price)
       case Cancel(id) => SomeAt(book - {id}, price)
       case Replace(o, n) =>
         n.price == price || (!Ahead(side, n.price, price) && SomeAt(book - {o.id}, price))
  }

  lemma NewKeepsBestIff(side: Side, book: Book, price: Word, o: Order)
    requires WellKeyed(book) && B.BestPriceIs(side, book, price) && Acceptable(o) && o.id !in book
    ensures B.BestPriceIs(side, book[o.id := o], price) <==> book != map[] && !Ahead(side, o.price, price)
  {
    var after := book[o.id := o];
    BestPriceIff(side, after, price);
    if book == map[] {
      assert !SomeAt(after, 0);
    } else {
      BestPriceIff(side, book, price);
      var id :| id in book && book[id].price == price;
      assert after[id] == book[id] && after[o.id] == o;
    }
  }

  lemma CancelKeepsBestIff(side: Side, book: Book, price: Word, id: OrderId)
    requires WellKeyed(book) && B.BestPriceIs(side, book, price) && id in book
    ensures B.BestPriceIs(side, book - {id}, price) <==> SomeAt(book - {id}, price)
  {
    BestPriceIff(side, book, price);
    if book - {id} != map[] {
      BestPriceIff(side, book - {id}, price);
    }
  }

  lemma ReplaceKeepsBestIff(side: Side, book: Book, price: Word, n: Order)
    requires WellKeyed(book) && B.BestPriceIs(side, book, price) && Acceptable(n) && n.id in book
    ensures B.BestPriceIs(side, book[n.id := n], price) <==>
              n.price == price || (!Ahead(side, n.price, price) && SomeAt(book - {n.id}, price))
  {
    var after := book[n.id := n];
    assert after[n.id] == n;
    BestPriceIff(side, book, price);
    BestPriceIff(side, after, price);
    if SomeAt(book - {n.id}, price) {
      var id :| id in book - {n.id} && (book - {n.id})[id].price == price;
      assert after[id].price == price;
    }
    if SomeAt(after, price) && n.price != price {
      var id :| id in after && after[id].price == price;
      assert id in book - {n.id} && (book - {n.id})[id].price == price;
    }
  }

  /** Which commands leave the best price where it is. */
  lemma KeepsBestIff(side: Side, book: Book, price: Word, op: Op)
    requires WellKeyed(book) && B.BestPriceIs(side, book, price)
    ensures B.BestPriceIs(side, Apply(book, op), price) <==> KeepsBest(side, book, price, op)
  {
    if B.Locks(op) && B.Hits(book, op) {
      match op {
        case New(o) => NewKeepsBestIff(side, book, price, o);
        case Cancel(id) => CancelKeepsBestIff(side, book, price, id);
        case Replace(o, n) => ReplaceKeepsBestIff(side, book, price, n);
      }
    } else if !B.Hits(book, op) {
      B.MissChangesNothing(book, op);
    }
  }

  /** price is the best one of every version from m to n. */
  ghost predicate BestThroughout(side: Side, log: seq<Op>, m: nat, n: nat, price: Word)
    requires n <= |log|
  {
    forall k :: m <= k <= n ==> B.BestPriceIs(side, B.Version(log, k), price)
  }

  /** Each command from version m to n keeps the best price of the version it meets. */
  ghost predicate KeptThroughout(side: Side, log: seq<Op>, m: nat, n: nat, price: Word)
    requires n <= |log|
  {
    forall k :: m <= k < n ==> KeepsBest(side, B.Version(log, k), price, log[k])
  }

  lemma {:induction false} BestThroughoutIff(side: Side, log: seq<Op>, m: nat, n: nat, price: Word)
    requires m <= n <= |log| && B.BestPriceIs(side, B.Version(log, m), price)
    ensures BestThroughout(side, log, m, n, price) <==> KeptThroughout(side, log, m, n, price)
    decreases n
  {
    if m < n {
      BestThroughoutIff(side, log, m, n - 1, price);
      if BestThroughout(side, log, m, n - 1, price) {
        OneMoreKept(side, log, m, n, price);
      } else {
        assert !BestThroughout(side, log, m, n, price) && !KeptThroughout(side, log, m, n, price);
      }
    }
  }

  lemma OneMoreKept(side: Side, log: seq<Op>, m: nat, n: nat, price: Word)
    requires m < n <= |log|
    requires BestThroughout(side, log, m, n - 1, price) && KeptThroughout(side, log, m, n - 1, price)
    ensures BestThroughout(side, log, m, n, price) <==> KeptThroughout(side, log, m, n, price)
  {
    O.VersionStep(log, n - 1);
    O.VersionKeyed(log, n - 1);
    KeepsBestIff(side, B.Version(log, n - 1), price, log[n - 1]);
    assert B.BestPriceIs(side, B.Version(log, n), price) <==> KeepsBest(side, B.Version(log, n - 1), price, log[n - 1]);
  }

  /**
   The best bid is read before the best ask. It is the best bid of every version from its own read to that of the ask,
   and so both are the best of the version at which the ask is read, exactly if each bid command committed in between
   keeps it.
   */
  lemma TopsOfOneVersionIff(events: seq<Event>, update: nat)
    requires Legal(EMPTY, events) && |Times(Run(EMPTY, events), update)| >= 2
    ensures var s := Run(EMPTY, events);
            var times := Times(s, update);
            && times[0] <= times[1] <= |s.log|
            && update in s.bids.readers && update in s.asks.readers
            && B.BestPriceIs(Ask, SideAt(s.log, times[1], Ask), s.asks.readers[update].price)
            && var m, n := Count(s.log, times[0], Bid), Count(s.log, times[1], Bid);
            var price := s.bids.readers[update].price;
            && n <= |s.bids.log|
            && (BestThroughout(Bid, s.bids.log, m, n, price) <==> KeptThroughout(Bid, s.bids.log, m, n, price))
            && (KeptThroughout(Bid, s.bids.log, m, n, price) ==>
                  B.BestPriceIs(Bid, SideAt(s.log, times[1], Bid), price))
  {
    EmptyInv();
    RunKeepsInv(EMPTY, events);
    var s := Run(EMPTY, events);
    var times := Times(s, update);
    assert UpdateOk(s, update, Bid) && UpdateOk(s, update, Ask);
    VersionIsSideAt(s.log, times[0], Bid);
    VersionIsSideAt(s.log, times[1], Bid);
    VersionIsSideAt(s.log, times[1], Ask);
    CountOrdered(s.log, times[0], times[1], Bid);
    assert B.ReaderOk(Bid, s.bids.log, s.bids.readers[update]);
    assert B.ReaderOk(Ask, s.asks.log, s.asks.readers[update]);
    var m, n := Count(s.log, times[0], Bid), Count(s.log, times[1], Bid);
    BestThroughoutIff(Bid, s.bids.log, m, n, s.bids.readers[update].price);
  }
  // ---------- A report of no version ----------

  ghost predicate Leads(s: State, events: seq<Event>, t: State) {
    Legal(s, events) && Run(s, events) == t
  }

  lemma LeadsCons(s: State, e: Event, rest: seq<Event>, t: State)
    requires Enabled(s, e) && Leads(Step(s, e), rest, t)
    ensures Leads(s, [e] + rest, t)
  {
    assert ([e] + rest)[1..] == rest;
  }

  /** The writer in flight on a side finishes alone. */
  lemma {:induction false} Finish(s: State, side: Side, rest: seq<Event>, t: State) returns (events: seq<Event>)
    requires var b := OfSide(s, side);
             && b.writer.Some? && B.WriterOk(b.book, b.total, b.writer.value)
             && Leads(Committed(s, side, Apply(b.writer.value.before, b.writer.value.op), b.writer.value.op), rest, t)
    ensures Leads(s, events, t)
    decreases var w := OfSide(s, side).writer.value; B.Length(w.before, w.op) - w.pc
  {
    var b := OfSide(s, side);
    var w := b.writer.value;
    if w.pc == B.Length(w.before, w.op) {
      BookOverlap.EndsOfTotal(w.before, w.op);
      LeadsCons(s, Write(side, B.Release), rest, t);
      events := [Write(side, B.Release)] + rest;
    } else {
      B.ExecuteKeepsWriter(b.book, b.total, w);
      SameCommitted(s, side, B.Advance, Apply(w.before, w.op), w.op);
      events := Finish(Step(s, Write(side, B.Advance)), side, rest, t);
      LeadsCons(s, Write(side, B.Advance), events, t);
      events := [Write(side, B.Advance)] + events;
    }
  }

  lemma SameCommitted(s: State, side: Side, step: B.Event, book: Book, op: Op)
    requires (step.Acquire? || step.Advance?) && Enabled(s, Write(side, step))
    ensures Committed(Step(s, Write(side, step)), side, book, op) == Committed(s, side, book, op)
    ensures OfSide(Step(s, Write(side, step)), side) == B.Step(side, OfSide(s, side), step)
  {
    assert s.log + [] == s.log;
  }

  /** The state once op has committed on a side and left this book. */
  ghost function Committed(s: State, side: Side, book: Book, op: Op): State {
    var b := OfSide(s, side);
    WithSide(s, side, B.State(book, Wrap(Sum(book)), None, b.readers, b.log + [op])).(log := s.log + [Commit(side, op)])
  }

  /** A command runs alone. */
  lemma Alone(s: State, side: Side, op: Op, rest: seq<Event>, t: State) returns (events: seq<Event>)
    requires var b := OfSide(s, side);
             && b.writer == None && b.total == Wrap(Sum(b.book)) && B.Locks(op)
             && Leads(Committed(s, side, Apply(b.book, op), op), rest, t)
    ensures Leads(s, events, t)
  {
    var b := OfSide(s, side);
    BookOverlap.EndsOfTotal(b.book, op);
    if !B.Hits(b.book, op) {
      B.MissChangesNothing(b.book, op);
    }
    SameCommitted(s, side, B.Acquire(op), Apply(b.book, op), op);
    events := Finish(Step(s, Write(side, B.Acquire(op))), side, rest, t);
    LeadsCons(s, Write(side, B.Acquire(op)), events, t);
    events := [Write(side, B.Acquire(op))] + events;
  }

  /**
   Otherwise the two may belong to no version: here a bid at 100 is cancelled before an ask at 90 is entered, and the
   update finds best bid 100 and best ask 90, though in no version both sides have orders.
   */
  lemma CrossedReport() returns (events: seq<Event>)
    ensures Legal(EMPTY, events)
    ensures var s := Run(EMPTY, events);
            && 0 in s.bids.readers && s.bids.readers[0].price == 100
            && 0 in s.asks.readers && s.asks.readers[0].price == 90
            && Times(s, 0) == [1, 3]
            && |s.log| == 3
            && forall n :: 0 <= n <= 3 ==> SideAt(s.log, n, Bid) == map[] || SideAt(s.log, n, Ask) == map[]
  {
    var bid, ask := Order(1, 100, 10), Order(2, 90, 5);
    var none: Book := map[];
    var bids, asks: Book := map[1 := bid], map[2 := ask];
    assert Apply(none, New(ask)) == asks && Apply(none, New(bid)) == bids && Apply(bids, Cancel(1)) == none;
    var entered, priced, cancelled, crossed, last := CrossedPath(bid, ask, bids, asks);
    LeadsCons(crossed, Read(0, 90), [], last);
    events := Alone(cancelled, Ask, New(ask), [Read(0, 90)] + [], last);
    events := Alone(priced, Bid, Cancel(1), events, last);
    LeadsCons(entered, Read(0, 100), events, last);
    events := Alone(EMPTY, Bid, New(bid), [Read(0, 100)] + events, last);
    CrossedVersions(bid, ask, last.log);
  }

  /** The states between the commands and the reads of a crossed report. */
  lemma CrossedPath(bid: Order, ask: Order, bids: Book, asks: Book)
      returns (entered: State, priced: State, cancelled: State, crossed: State, last: State)
    requires bid == Order(1, 100, 10) && ask == Order(2, 90, 5) && bids == map[1 := bid] && asks == map[2 := ask]
    ensures entered == Committed(EMPTY, Bid, bids, New(bid))
    ensures Enabled(entered, Read(0, 100)) && priced == Step(entered, Read(0, 100))
    ensures cancelled == Committed(priced, Bid, map[], Cancel(1))
    ensures crossed == Committed(cancelled, Ask, asks, New(ask))
    ensures Enabled(crossed, Read(0, 90)) && last == Step(crossed, Read(0, 90))
    ensures 0 in last.bids.readers && last.bids.readers[0].price == 100
    ensures 0 in last.asks.readers && last.asks.readers[0].price == 90
    ensures Times(last, 0) == [1, 3]
    ensures last.log == [Commit(Bid, New(bid)), Commit(Bid, Cancel(1)), Commit(Ask, New(ask))]
  {
    assert 1 in bids && IsBest(Bid, bids[1], bids) && 2 in asks && IsBest(Ask, asks[2], asks);
    entered := Committed(EMPTY, Bid, bids, New(bid));
    priced := Step(entered, Read(0, 100));
    assert Times(priced, 0) == [1];
    cancelled := Committed(priced, Bid, map[], Cancel(1));
    crossed := Committed(cancelled, Ask, asks, New(ask));
    last := Step(crossed, Read(0, 90));
    assert Times(last, 0) == [1] + [3];
  }

  lemma CrossedVersions(bid: Order, ask: Order, log: seq<Commit>)
    requires bid == Order(1, 100, 10) && ask == Order(2, 90, 5)
    requires log == [Commit(Bid, New(bid)), Commit(Bid, Cancel(1)), Commit(Ask, New(ask))]
    ensures forall n :: 0 <= n <= 3 ==> SideAt(log, n, Bid) == map[] || SideAt(log, n, Ask) == map[]
  {
    assert log[..0] == [] && log[..1] == [] + [log[0]];
    assert log[..2] == log[..1] + [log[1]] && log[..3] == log[..2] + [log[2]];
    OnlySnoc([], log[0], Bid);
    OnlySnoc(log[..1], log[1], Bid);
    OnlySnoc(log[..2], log[2], Bid);
    OnlySnoc([], log[0], Ask);
    OnlySnoc(log[..1], log[1], Ask);
    assert Only(log[..2], Ask) == [] && Only(log[..0], Bid) == [];
    B.ReplaySnoc([New(bid)], Cancel(1));
    B.ReplaySnoc([], New(bid));
    assert Only(log[..2], Bid) == [New(bid)] + [Cancel(1)] && Only(log[..3], Bid) == Only(log[..2], Bid);
    assert SideAt(log, 2, Bid) == map[];
  }
}
