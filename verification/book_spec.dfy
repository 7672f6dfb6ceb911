/**
 One side of the order book as a map from order ids to resting orders: the priority order, the effect of the
 commands, replay of command logs, quantity sums and price levels.
 */
module BookSpec {
  import opened Common

  datatype Side = Bid | Ask

  /** BidComparator and AskComparator. */
  predicate Before(side: Side, a: Order, b: Order) {
    match side
    case Bid =>
      || a.price > b.price
      || (a.price == b.price && a.quantity > b.quantity)
      || (a.price == b.price && a.quantity == b.quantity && a.id < b.id)
    case Ask =>
      || a.price < b.price
      || (a.price == b.price && a.quantity > b.quantity)
      || (a.price == b.price && a.quantity == b.quantity && a.id < b.id)
  }

  type Book = map<OrderId, Order>

  predicate Acceptable(o: Order) {
    o.price != 0 && o.quantity != 0
  }

  /** Every order rests under its own id and is acceptable. */
  ghost predicate WellKeyed(book: Book) {
    forall id :: id in book ==> book[id].id == id && Acceptable(book[id])
  }

  // ---------- Commands ----------

  datatype Op =
    | New(order: Order)
    | Cancel(id: OrderId)
    | Replace(oldOrder: Order, newOrder: Order)

  function Apply(book: Book, op: Op): Book {
    match op
    case New(o) => if Acceptable(o) && o.id !in book then book[o.id := o] else book
    case Cancel(id) => book - {id}
    case Replace(o, n) => if Acceptable(n) && o.id == n.id && o.id in book then book[o.id := n] else book
  }

  function Replay(book: Book, log: seq<Op>): Book {
    if log == [] then book else Apply(Replay(book, log[..|log| - 1]), log[|log| - 1])
  }

  /** The history of a single id: what one command does to the order resting under it. */
  function ApplyAt(cell: Option<Order>, id: OrderId, op: Op): Option<Order> {
    match op
    case New(o) => if o.id == id && Acceptable(o) && cell == None then Some(o) else cell
    case Cancel(i) => if i == id then None else cell
    case Replace(o, n) => if o.id == id == n.id && Acceptable(n) && cell.Some? then Some(n) else cell
  }

  function ReplayAt(cell: Option<Order>, id: OrderId, log: seq<Op>): Option<Order> {
    if log == [] then cell else ApplyAt(ReplayAt(cell, id, log[..|log| - 1]), id, log[|log| - 1])
  }

  predicate Names(op: Op, id: OrderId) {
    match op
    case New(o) => o.id == id
    case Cancel(i) => i == id
    case Replace(o, _) => o.id == id
  }

  /** The commands of a log that name id. */
  function Touching(id: OrderId, log: seq<Op>): seq<Op> {
    if log == [] then []
    else
      var front, last := Touching(id, log[..|log| - 1]), log[|log| - 1];
      if Names(last, id) then front + [last] else front
  }

  function At(book: Book, id: OrderId): Option<Order> {
    if id in book then Some(book[id]) else None
  }

  lemma {:induction false} ReplayKeepsKeys(book: Book, log: seq<Op>)
    requires WellKeyed(book)
    ensures WellKeyed(Replay(book, log))
  {
    if log != [] {
      ReplayKeepsKeys(book, log[..|log| - 1]);
    }
  }

  /** What each command does: an order with a zero price or quantity, a taken or a missing id changes nothing. */
  lemma CommandsSpelledOut(book: Book, o: Order, n: Order, id: OrderId)
    ensures Apply(book, New(o)) ==
              if o.price != 0 && o.quantity != 0 && o.id !in book then book[o.id := o] else book
    ensures Apply(book, Replace(o, n)) ==
              if n.price != 0 && n.quantity != 0 && o.id == n.id && o.id in book then book[o.id := n] else book
    ensures forall i :: i in Apply(book, Cancel(id)) <==> i in book && i != id
    ensures forall i :: i in book && i != id ==> Apply(book, Cancel(id))[i] == book[i]
  {
  }

  /** op, arriving at book, puts o there. */
  ghost predicate Enters(book: Book, op: Op, o: Order) {
    && o.price != 0 && o.quantity != 0
    && match op
       case New(x) => x == o && o.id !in book
       case Replace(x, n) => n == o && x.id == o.id && o.id in book
       case Cancel(_) => false
  }

  /** op takes whatever rests under id away from there. */
  ghost predicate Displaces(op: Op, id: OrderId) {
    match op
    case New(_) => false
    case Replace(x, n) => x.id == id && n.id == id && n.price != 0 && n.quantity != 0
    case Cancel(i) => i == id
  }

  ghost predicate Rests(book: Book, o: Order) {
    o.id in book && book[o.id] == o
  }

  /** Command k of the log entered o, and none after it displaced it. */
  ghost predicate EnteredLast(log: seq<Op>, k: nat, o: Order) {
    && k < |log| && Enters(Replay(map[], log[..k]), log[k], o)
    && forall j :: k < j < |log| ==> !Displaces(log[j], o.id)
  }

  lemma RestsAfter(book: Book, op: Op, o: Order)
    ensures Rests(Apply(book, op), o) <==> Enters(book, op, o) || (Rests(book, o) && !Displaces(op, o.id))
  {
  }

  lemma EnteredLastSnoc(front: seq<Op>, last: Op, k: nat, o: Order)
    requires k < |front|
    ensures EnteredLast(front + [last], k, o) <==> EnteredLast(front, k, o) && !Displaces(last, o.id)
  {
    var log := front + [last];
    assert log[..k] == front[..k];
    assert log[|front|] == last;
    assert forall j :: 0 <= j < |front| ==> log[j] == front[j];
  }

  /** After any log an order rests exactly if some command entered it and none after that displaced it. */
  lemma {:induction false} RestsIffEnteredLast(log: seq<Op>, o: Order)
    ensures Rests(Replay(map[], log), o) <==> exists k :: EnteredLast(log, k, o)
  {
    if log != [] {
      var n := |log| - 1;
      var front, last := log[..n], log[n];
      assert log == front + [last];
      RestsIffEnteredLast(front, o);
      RestsAfter(Replay(map[], front), last, o);
      assert EnteredLast(log, n, o) <==> Enters(Replay(map[], front), last, o);
      forall k | 0 <= k < n
        ensures EnteredLast(log, k, o) <==> EnteredLast(front, k, o) && !Displaces(last, o.id)
      {
        EnteredLastSnoc(front, last, k, o);
      }
    }
  }

  lemma ApplyPerId(book: Book, op: Op, id: OrderId)
    ensures At(Apply(book, op), id) == if Names(op, id) then ApplyAt(At(book, id), id, op) else At(book, id)
  {
  }

  /** Commands on different ids commute: what rests under id depends only on the commands that name it. */
  lemma {:induction false} ReplayPerId(book: Book, log: seq<Op>, id: OrderId)
    ensures At(Replay(book, log), id) == ReplayAt(At(book, id), id, Touching(id, log))
  {
    if log != [] {
      var front, last := log[..|log| - 1], log[|log| - 1];
      ReplayPerId(book, front, id);
      ApplyPerId(Replay(book, front), last, id);
      var mine := Touching(id, front);
      if Names(last, id) {
        ReplayAtSnoc(At(book, id), id, mine, last);
      }
    }
  }

  lemma ReplayAtSnoc(cell: Option<Order>, id: OrderId, log: seq<Op>, op: Op)
    ensures ReplayAt(cell, id, log + [op]) == ApplyAt(ReplayAt(cell, id, log), id, op)
  {
    assert (log + [op])[..|log|] == log;
  }

  lemma SameSublogsSameBook(book: Book, log1: seq<Op>, log2: seq<Op>)
    requires forall id :: Touching(id, log1) == Touching(id, log2)
    ensures Replay(book, log1) == Replay(book, log2)
  {
    var b1, b2 := Replay(book, log1), Replay(book, log2);
    forall id: OrderId
      ensures At(b1, id) == At(b2, id)
    {
      ReplayPerId(book, log1, id);
      ReplayPerId(book, log2, id);
      assert Touching(id, log1) == Touching(id, log2);
    }
    assert forall id :: id in b1 <==> At(b1, id).Some?;
    assert forall id :: id in b2 <==> At(b2, id).Some?;
    forall id | id in b1
      ensures id in b2 && b1[id] == b2[id]
    {
      assert At(b1, id) == At(b2, id);
    }
  }

  /** Replacing a resting order with an acceptable one is cancelling it and entering the new one. */
  lemma ReplaceIsCancelThenNew(book: Book, o: Order, n: Order)
    requires o.id == n.id && o.id in book && Acceptable(n)
    ensures Apply(book, Replace(o, n)) == Apply(Apply(book, Cancel(o.id)), New(n))
  {
  }

  /** Entering an order and cancelling it is the identity exactly when its id was not resting. */
  lemma NewThenCancel(book: Book, o: Order)
    ensures Apply(Apply(book, New(o)), Cancel(o.id)) == book <==> o.id !in book
  {
  }

  // ---------- Listings ----------

  predicate Contains(orders: seq<Order>, o: Order) {
    o in orders
  }

  /** orders holds exactly the orders of book, each once. */
  ghost predicate Lists(orders: seq<Order>, book: Book) {
    && (forall i :: 0 <= i < |orders| ==> orders[i].id in book && book[orders[i].id] == orders[i])
    && (forall i, j :: 0 <= i < j < |orders| ==> orders[i].id != orders[j].id)
    && (forall id {:trigger Contains(orders, book[id])} :: id in book ==> Contains(orders, book[id]))
  }

  ghost predicate Sorted(side: Side, orders: seq<Order>) {
    forall i, j :: 0 <= i < j < |orders| ==> Before(side, orders[i], orders[j])
  }

  /** The comparators are strict total orders on orders with distinct ids. */
  lemma BeforeIsStrictTotal(side: Side, a: Order, b: Order, c: Order)
    ensures !Before(side, a, a)
    ensures Before(side, a, b) && Before(side, b, c) ==> Before(side, a, c)
    ensures Before(side, a, b) ==> !Before(side, b, a)
    ensures a.id != b.id ==> Before(side, a, b) || Before(side, b, a)
  {
  }

  lemma ListsTail(orders: seq<Order>, book: Book)
    requires WellKeyed(book) && Lists(orders, book) && orders != []
    ensures Lists(orders[1..], book - {orders[0].id})
    ensures WellKeyed(book - {orders[0].id})
  {
    var rest := book - {orders[0].id};
    forall id | id in rest
      ensures Contains(orders[1..], rest[id])
    {
      assert Contains(orders, book[id]);
      var i :| 0 <= i < |orders| && orders[i] == book[id];
      assert orders[i] == orders[1..][i - 1];
    }
  }

  lemma EmptyListing(orders: seq<Order>, book: Book)
    requires Lists(orders, book)
    ensures orders == [] <==> book == map[]
  {
    if orders == [] {
      forall id | id in book
        ensures Contains(orders, book[id])
      {
      }
      assert forall id :: id !in book;
    } else {
      assert orders[0].id in book;
    }
  }

  /** The priority listing, and with it the best order, is determined by the map alone. */
  lemma {:induction false} SortedListingUnique(side: Side, s: seq<Order>, t: seq<Order>, book: Book)
    requires WellKeyed(book) && Lists(s, book) && Lists(t, book) && Sorted(side, s) && Sorted(side, t)
    ensures s == t
    decreases |s|
  {
    EmptyListing(s, book);
    EmptyListing(t, book);
    if s != [] {
      SameHead(side, s, t, book);
      ListsTail(s, book);
      ListsTail(t, book);
      SortedListingUnique(side, s[1..], t[1..], book - {s[0].id});
      assert s == [s[0]] + s[1..] && t == [t[0]] + t[1..];
    }
  }

  lemma SameHead(side: Side, s: seq<Order>, t: seq<Order>, book: Book)
    requires WellKeyed(book) && Lists(s, book) && Lists(t, book) && Sorted(side, s) && Sorted(side, t)
    requires s != [] && t != []
    ensures s[0] == t[0]
  {
    assert Contains(t, book[s[0].id]) && Contains(s, book[t[0].id]);
    var i :| 0 <= i < |t| && t[i] == s[0];
    var j :| 0 <= j < |s| && s[j] == t[0];
    BeforeIsStrictTotal(side, s[0], t[0], s[0]);
  }

  /** best comes before every other resting order; its price is the extremum of the side. */
  ghost predicate IsBest(side: Side, best: Order, book: Book) {
    && best.id in book && book[best.id] == best
    && forall id :: id in book && id != best.id ==> Before(side, best, book[id])
  }

  /** Priority spelled out: best price first, then larger quantity, then smaller id. */
  lemma BestIffFirst(side: Side, best: Order, book: Book)
    requires WellKeyed(book) && best.id in book && book[best.id] == best
    ensures IsBest(side, best, book) <==>
              && (forall id :: id in book ==>
                    if side == Bid then book[id].price <= best.price else best.price <= book[id].price)
              && (forall id :: id in book && book[id].price == best.price ==> book[id].quantity <= best.quantity)
              && (forall id :: id in book && book[id].price == best.price && book[id].quantity == best.quantity ==>
                    best.id <= id)
  {
  }

  lemma HeadIsBest(side: Side, orders: seq<Order>, book: Book)
    requires WellKeyed(book) && Lists(orders, book) && Sorted(side, orders) && orders != []
    ensures IsBest(side, orders[0], book)
  {
    forall id | id in book && id != orders[0].id
      ensures Before(side, orders[0], book[id])
    {
      assert Contains(orders, book[id]);
      var i :| 0 <= i < |orders| && orders[i] == book[id];
    }
  }

  // ---------- Quantity sums ----------

  /** The true, unbounded sum of the resting quantities. */
  ghost function Sum(book: Book): nat
    decreases |book|
  {
    if book == map[] then 0
    else
      var id :| id in book;
      book[id].quantity + Sum(book - {id})
  }

  lemma RemoveSmaller(book: Book, id: OrderId)
    requires id in book
    ensures |book - {id}| == |book| - 1
  {
    assert (book - {id}).Keys == book.Keys - {id};
  }

  lemma {:induction false} SumWithout(book: Book, id: OrderId)
    requires id in book
    ensures Sum(book) == book[id].quantity + Sum(book - {id})
    decreases |book|
  {
    var first :| first in book && Sum(book) == book[first].quantity + Sum(book - {first});
    if first != id {
      RemoveSmaller(book, first);
      RemoveSmaller(book, id);
      SumWithout(book - {first}, id);
      SumWithout(book - {id}, first);
      assert book - {first} - {id} == book - {id} - {first};
    }
  }

  lemma SumWith(book: Book, o: Order)
    ensures Sum(book[o.id := o]) == Sum(book - {o.id}) + o.quantity
  {
    var after := book[o.id := o];
    SumWithout(after, o.id);
    assert after - {o.id} == book - {o.id};
  }

  /** How each command moves the sum of the resting quantities. */
  function Change(book: Book, op: Op): int {
    match op
    case New(o) => if Acceptable(o) && o.id !in book then o.quantity else 0
    case Cancel(id) => if id in book then 0 - book[id].quantity as int else 0
    case Replace(o, n) =>
      if Acceptable(n) && o.id == n.id && o.id in book then n.quantity - book[o.id].quantity else 0
  }

  lemma ApplyMovesSum(book: Book, op: Op)
    ensures Sum(Apply(book, op)) == Sum(book) + Change(book, op)
  {
    match op {
      case New(o) =>
        SumWith(book, o);
        if o.id !in book {
          assert book - {o.id} == book;
        }
      case Cancel(id) =>
        if id in book {
          SumWithout(book, id);
        } else {
          assert book - {id} == book;
        }
      case Replace(o, n) =>
        if o.id == n.id && o.id in book {
          SumWith(book, n);
          SumWithout(book, o.id);
        }
    }
  }

  // ---------- Price levels ----------

  /** The orders resting at price. */
  ghost function Level(book: Book, price: Word): Book {
    map id | id in book && book[id].price == price :: book[id]
  }

  ghost function Off(book: Book, price: Word): Book {
    map id | id in book && book[id].price != price :: book[id]
  }

  lemma {:induction false} SumSplitsAtPrice(book: Book, price: Word)
    ensures Sum(book) == Sum(Level(book, price)) + Sum(Off(book, price))
    decreases |book|
  {
    if book != map[] {
      var id :| id in book;
      var rest := book - {id};
      RemoveSmaller(book, id);
      SumSplitsAtPrice(rest, price);
      SumWithout(book, id);
      if book[id].price == price {
        SumWithout(Level(book, price), id);
        assert Level(book, price) - {id} == Level(rest, price);
        assert Off(book, price) == Off(rest, price);
      } else {
        SumWithout(Off(book, price), id);
        assert Off(book, price) - {id} == Off(rest, price);
        assert Level(book, price) == Level(rest, price);
      }
    }
  }

  ghost function SumOfLevels(book: Book, prices: seq<Word>): nat {
    if prices == [] then 0 else Sum(Level(book, prices[0])) + SumOfLevels(book, prices[1..])
  }

  lemma {:induction false} LevelsOff(book: Book, price: Word, prices: seq<Word>)
    requires price !in prices
    ensures SumOfLevels(book, prices) == SumOfLevels(Off(book, price), prices)
  {
    if prices != [] {
      LevelsOff(book, price, prices[1..]);
      assert Level(book, prices[0]) == Level(Off(book, price), prices[0]);
    }
  }

  /** Price levels partition the side: the level quantities over the distinct resting prices add up to the total. */
  lemma {:induction false} LevelsPartition(book: Book, prices: seq<Word>)
    requires forall i, j :: 0 <= i < j < |prices| ==> prices[i] != prices[j]
    requires forall id :: id in book ==> book[id].price in prices
    ensures SumOfLevels(book, prices) == Sum(book)
    decreases |prices|
  {
    if prices == [] {
      assert forall id :: id !in book;
    } else {
      var price, rest := prices[0], prices[1..];
      var off := Off(book, price);
      SumSplitsAtPrice(book, price);
      LevelsOff(book, price, rest);
      forall id | id in off
        ensures off[id].price in rest
      {
        assert book[id].price in prices;
      }
      LevelsPartition(off, rest);
    }
  }

  lemma LevelBounded(book: Book, price: Word)
    ensures Sum(Level(book, price)) <= Sum(book)
  {
    SumSplitsAtPrice(book, price);
  }

  lemma LevelPositive(book: Book, id: OrderId)
    requires WellKeyed(book) && id in book
    ensures Sum(Level(book, book[id].price)) >= book[id].quantity > 0
  {
    SumWithout(Level(book, book[id].price), id);
  }
}
