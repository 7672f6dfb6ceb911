/** The order book object: two sides, each with three indexes over the same orders and an incremental total. */
module OrderBooks {
  import opened Common
  import opened BookSpec

  // ---------- Index maintenance ----------

  function InsertAt<T>(s: seq<T>, i: nat, x: T): seq<T>
    requires i <= |s|
  {
    s[..i] + [x] + s[i..]
  }

  ghost predicate PriceSorted(orders: seq<Order>) {
    forall i, j :: 0 <= i < j < |orders| ==> orders[i].price <= orders[j].price
  }

  lemma InsertKeepsListing(orders: seq<Order>, i: nat, o: Order, book: Book)
    requires i <= |orders| && WellKeyed(book) && Lists(orders, book) && o.id !in book
    ensures Lists(InsertAt(orders, i, o), book[o.id := o])
  {
    var after, grown := InsertAt(orders, i, o), book[o.id := o];
    assert after[i] == o;
    forall id | id in grown
      ensures Contains(after, grown[id])
    {
      if id != o.id {
        assert Contains(orders, book[id]);
        var k :| 0 <= k < |orders| && orders[k] == book[id];
        assert after[if k < i then k else k + 1] == book[id];
      }
    }
    InsertKeepsIdsDistinct(orders, i, o, book);
  }

  lemma InsertKeepsIdsDistinct(orders: seq<Order>, i: nat, o: Order, book: Book)
    requires i <= |orders| && o.id !in book
    requires forall k :: 0 <= k < |orders| ==> orders[k].id in book
    requires forall j, k :: 0 <= j < k < |orders| ==> orders[j].id != orders[k].id
    ensures var after := InsertAt(orders, i, o);
            forall j, k :: 0 <= j < k < |after| ==> after[j].id != after[k].id
  {
  }

  lemma RemoveKeepsListing(orders: seq<Order>, i: nat, book: Book)
    requires i < |orders| && WellKeyed(book) && Lists(orders, book)
    ensures Lists(Without(orders, i), book - {orders[i].id})
  {
    var after := Without(orders, i);
    forall id | id in book && id != orders[i].id
      ensures Contains(after, book[id])
    {
      assert Contains(orders, book[id]);
      var k :| 0 <= k < |orders| && orders[k] == book[id];
      assert after[if k < i then k else k - 1] == book[id];
    }
  }

  /** The quantities of a range of an index, added up. */
  function SumOrders(orders: seq<Order>): nat {
    if orders == [] then 0 else SumOrders(orders[..|orders| - 1]) + orders[|orders| - 1].quantity
  }

  lemma FrontListing(orders: seq<Order>, book: Book)
    requires WellKeyed(book) && Lists(orders, book) && orders != []
    ensures var last := orders[|orders| - 1];
            && last.id in book && book[last.id] == last
            && WellKeyed(book - {last.id})
            && Lists(orders[..|orders| - 1], book - {last.id})
  {
    var last := |orders| - 1;
    assert Without(orders, last) == orders[..last];
    RemoveKeepsListing(orders, last, book);
  }

  lemma {:induction false} SumOfListing(orders: seq<Order>, book: Book)
    requires WellKeyed(book) && Lists(orders, book)
    ensures SumOrders(orders) == Sum(book)
    decreases |orders|
  {
    if orders == [] {
      EmptyListing(orders, book);
    } else {
      var last := orders[|orders| - 1];
      FrontListing(orders, book);
      SumOfListing(orders[..|orders| - 1], book - {last.id});
      SumWithout(book, last.id);
    }
  }

  lemma RangeListsLevel(orders: seq<Order>, lo: nat, hi: nat, price: Word, book: Book)
    requires WellKeyed(book) && Lists(orders, book) && lo <= hi <= |orders|
    requires forall i :: 0 <= i < |orders| ==> (lo <= i < hi <==> orders[i].price == price)
    ensures Lists(orders[lo..hi], Level(book, price))
  {
    forall id | id in book && book[id].price == price
      ensures Contains(orders[lo..hi], Level(book, price)[id])
    {
      assert Contains(orders, book[id]);
      var i :| 0 <= i < |orders| && orders[i] == book[id];
      assert orders[lo..hi][i - lo] == book[id];
    }
  }

  /** The three indexes of a side hold the same orders, each in its own order. */
  ghost predicate Indexes(side: Side, priority: seq<Order>, ids: Book, prices: seq<Order>) {
    && WellKeyed(ids)
    && Lists(priority, ids) && Sorted(side, priority)
    && Lists(prices, ids) && PriceSorted(prices)
  }

  lemma InsertKeepsIndexes(side: Side, priority: seq<Order>, ids: Book, prices: seq<Order>, i: nat, j: nat, o: Order)
    requires Indexes(side, priority, ids, prices) && Acceptable(o) && o.id !in ids
    requires i <= |priority| && Sorted(side, InsertAt(priority, i, o))
    requires j <= |prices| && PriceSorted(InsertAt(prices, j, o))
    ensures Indexes(side, InsertAt(priority, i, o), ids[o.id := o], InsertAt(prices, j, o))
  {
    InsertKeepsListing(priority, i, o, ids);
    InsertKeepsListing(prices, j, o, ids);
  }

  lemma RemoveKeepsIndexes(side: Side, priority: seq<Order>, ids: Book, prices: seq<Order>, i: nat, j: nat)
    requires Indexes(side, priority, ids, prices)
    requires i < |priority| && j < |prices| && priority[i].id == prices[j].id
    ensures Indexes(side, Without(priority, i), ids - {priority[i].id}, Without(prices, j))
  {
    RemoveKeepsListing(priority, i, ids);
    RemoveKeepsListing(prices, j, ids);
  }

  // ---------- One side ----------

  class OrderSide {
    const side: Side
    var priority: seq<Order>       // index 0, ordered by the comparator
    var ids: map<OrderId, Order>   // index 1, unique by id
    var prices: seq<Order>         // index 2, ordered by price alone
    var total: Word                // total_bid_quantity_ or total_ask_quantity_

    /** The three indexes hold the same orders, each in its own order, and the total is their sum modulo 2^64. */
    ghost predicate Valid()
      reads this
    {
      && Indexes(side, priority, ids, prices)
      && total == Wrap(Sum(ids))
    }

    constructor (side: Side)
      ensures Valid() && this.side == side && ids == map[]
    {
      this.side := side;
      priority, ids, prices, total := [], map[], [], 0;
    }

    /** The place of o in the priority order. */
    method Rank(o: Order) returns (i: nat)
      requires Lists(priority, ids) && Sorted(side, priority) && o.id !in ids
      ensures i <= |priority| && Sorted(side, InsertAt(priority, i, o))
    {
      i := 0;
      while i < |priority| && Before(side, priority[i], o)
        invariant i <= |priority|
        invariant forall k :: 0 <= k < i ==> Before(side, priority[k], o)
      {
        i := i + 1;
      }
      forall k | i <= k < |priority|
        ensures Before(side, o, priority[k])
      {
        BeforeIsStrictTotal(side, o, priority[i], priority[k]);
      }
    }

    /** lower_bound and upper_bound of the price index. */
    method Bound(price: Word, upper: bool) returns (i: nat)
      requires PriceSorted(prices)
      ensures i <= |prices|
      ensures forall k :: 0 <= k < i ==> prices[k].price < price || (upper && prices[k].price == price)
      ensures forall k :: i <= k < |prices| ==> prices[k].price > price || (!upper && prices[k].price == price)
    {
      i := 0;
      var j := |prices|;
      while i < j
        invariant i <= j <= |prices|
        invariant forall k :: 0 <= k < i ==> prices[k].price < price || (upper && prices[k].price == price)
        invariant forall k :: j <= k < |prices| ==> prices[k].price > price || (!upper && prices[k].price == price)
      {
        var mid := (i + j) / 2;
        if prices[mid].price < price || (upper && prices[mid].price == price) {
          i := mid + 1;
        } else {
          j := mid;
        }
      }
    }

    /** Places o in the two ordered indexes and the id index. */
    method Insert(o: Order)
      requires Indexes(side, priority, ids, prices) && Acceptable(o) && o.id !in ids
      modifies this`priority, this`ids, this`prices
      ensures ids == old(ids)[o.id := o] && Indexes(side, priority, ids, prices)
    {
      var i := Rank(o);
      var j := Bound(o.price, true);
      InsertKeepsIndexes(side, priority, ids, prices, i, j, o);
      priority, ids, prices := InsertAt(priority, i, o), ids[o.id := o], InsertAt(prices, j, o);
    }

    method Locate(orders: seq<Order>, id: OrderId) returns (i: nat)
      requires WellKeyed(ids) && Lists(orders, ids) && id in ids
      ensures i < |orders| && orders[i] == ids[id]
    {
      assert Contains(orders, ids[id]);
      i := 0;
      while orders[i].id != id
        invariant i < |orders| && id !in set k | 0 <= k < i :: orders[k].id
        invariant exists k :: i <= k < |orders| && orders[k] == ids[id]
        decreases |orders| - i
      {
        i := i + 1;
      }
    }

    /** Unlinks the order resting under id from all three indexes. */
    method Unlink(id: OrderId)
      requires Indexes(side, priority, ids, prices) && id in ids
      modifies this`priority, this`ids, this`prices
      ensures ids == old(ids) - {id} && Indexes(side, priority, ids, prices)
    {
      var i := Locate(priority, id);
      var j := Locate(prices, id);
      RemoveKeepsIndexes(side, priority, ids, prices, i, j);
      priority, ids, prices := Without(priority, i), ids - {id}, Without(prices, j);
    }

    method NewOrder(o: Order)
      requires Valid()
      modifies this
      ensures Valid() && ids == Apply(old(ids), New(o))
      ensures ids == if o.price != 0 && o.quantity != 0 && o.id !in old(ids) then old(ids)[o.id := o] else old(ids)
    {
      if !Acceptable(o) {
        return;
      }
      if o.id !in ids {
        ghost var after := Wrap(Sum(Apply(ids, New(o))));
        assert Wrap(total + o.quantity) == after by {
          TotalFollows(ids, New(o));
        }
        Insert(o);
        total := Wrap(total + o.quantity);
      }
    }

    method CancelOrder(id: OrderId)
      requires Valid()
      modifies this
      ensures Valid() && ids == Apply(old(ids), Cancel(id))
      ensures ids == old(ids) - {id}
    {
      if id in ids {
        ghost var after := Wrap(Sum(Apply(ids, Cancel(id))));
        assert Wrap(total - ids[id].quantity) == after by {
          TotalFollows(ids, Cancel(id));
        }
        total := Wrap(total - ids[id].quantity);
        Unlink(id);
      } else {
        assert ids - {id} == ids;
      }
    }

    method ReplaceOrder(oldOrder: Order, newOrder: Order)
      requires Valid()
      modifies this
      ensures Valid() && ids == Apply(old(ids), Replace(oldOrder, newOrder))
      ensures ids == if newOrder.price != 0 && newOrder.quantity != 0 && oldOrder.id == newOrder.id
                        && oldOrder.id in old(ids)
                     then old(ids)[oldOrder.id := newOrder] else old(ids)
    {
      if newOrder.price == 0 || newOrder.quantity == 0 {
        return;
      }
      if oldOrder.id != newOrder.id {
        return;
      }
      if oldOrder.id in ids {
        ReplacedTotal(ids, newOrder);
        total := Wrap(total - ids[oldOrder.id].quantity);
        total := Wrap(total + newOrder.quantity);
        Reposition(oldOrder.id, newOrder);
      }
    }

    /** modify: gives the order resting under id a new price and quantity and re-positions it in the ordered indexes. */
    method Reposition(id: OrderId, newOrder: Order)
      requires Indexes(side, priority, ids, prices) && id in ids && id == newOrder.id && Acceptable(newOrder)
      modifies this`priority, this`ids, this`prices
      ensures ids == old(ids)[id := newOrder] && Indexes(side, priority, ids, prices)
    {
      Unlink(id);
      Insert(newOrder);
    }

    method Serve(op: Op)
      requires Valid()
      modifies this
      ensures Valid() && ids == Apply(old(ids), op)
    {
      match op {
        case New(o) => NewOrder(o);
        case Cancel(id) => CancelOrder(id);
        case Replace(o, n) => ReplaceOrder(o, n);
      }
    }

    /** A whole run: commands arriving one by one leave the replay of their log, indexes and total in agreement. */
    method ServeAll(log: seq<Op>)
      requires Valid()
      modifies this
      ensures Valid() && ids == Replay(old(ids), log)
    {
      for i := 0 to |log|
        invariant Valid() && ids == Replay(old(ids), log[..i])
      {
        assert log[..i + 1][..i] == log[..i];
        Serve(log[i]);
      }
      assert log[..|log|] == log;
    }

    method Best() returns (best: Order)
      requires Valid()
      ensures if ids == map[] then best == Order(0, 0, 0) else IsBest(side, best, ids)
    {
      EmptyListing(priority, ids);
      if |priority| == 0 {
        return Order(0, 0, 0);
      }
      HeadIsBest(side, priority, ids);
      return priority[0];
    }

    /** The ids in a range of the price index and the sum of their quantities modulo 2^64. */
    method Collect(lo: nat, hi: nat) returns (found: seq<OrderId>, quantity: Word)
      requires lo <= hi <= |prices|
      ensures |found| == hi - lo && forall k :: 0 <= k < |found| ==> found[k] == prices[lo..hi][k].id
      ensures quantity == Wrap(SumOrders(prices[lo..hi]))
    {
      found, quantity := [], 0;
      for i := lo to hi
        invariant |found| == i - lo
        invariant forall k :: 0 <= k < |found| ==> found[k] == prices[lo + k].id
        invariant quantity == Wrap(SumOrders(prices[lo..i]))
      {
        assert prices[lo..i + 1][..i - lo] == prices[lo..i];
        WrapShift(SumOrders(prices[lo..i]), prices[i].quantity);
        found := found + [prices[i].id];
        quantity := Wrap(quantity + prices[i].quantity);
      }
    }

    /** GetContainerPrice: the ids resting at price, each once, and their quantity modulo 2^64. */
    method PriceInfo(price: Word) returns (found: seq<OrderId>, quantity: Word)
      requires Valid()
      ensures forall id :: id in found <==> id in ids && ids[id].price == price
      ensures forall i, j :: 0 <= i < j < |found| ==> found[i] != found[j]
      ensures quantity == Wrap(Sum(Level(ids, price)))
    {
      EmptyListing(prices, ids);
      if |prices| == 0 {
        assert Level(ids, price) == map[];
        return [], 0;
      }
      var lo := Bound(price, false);
      var hi := Bound(price, true);
      RangeIsLevel(prices, lo, hi, price, ids);
      found, quantity := Collect(lo, hi);
      IdsOfListing(found, prices[lo..hi], Level(ids, price));
    }
  }

  lemma RangeIsLevel(prices: seq<Order>, lo: nat, hi: nat, price: Word, book: Book)
    requires WellKeyed(book) && Lists(prices, book) && lo <= |prices| && hi <= |prices|
    requires forall k :: 0 <= k < lo ==> prices[k].price < price
    requires forall k :: lo <= k < |prices| ==> prices[k].price >= price
    requires forall k :: 0 <= k < hi ==> prices[k].price <= price
    requires forall k :: hi <= k < |prices| ==> prices[k].price > price
    ensures lo <= hi && Lists(prices[lo..hi], Level(book, price))
    ensures SumOrders(prices[lo..hi]) == Sum(Level(book, price))
  {
    assert hi == |prices| || prices[hi].price > price;
    RangeListsLevel(prices, lo, hi, price, book);
    SumOfListing(prices[lo..hi], Level(book, price));
  }

  lemma IdsOfListing(found: seq<OrderId>, orders: seq<Order>, book: Book)
    requires WellKeyed(book) && Lists(orders, book)
    requires |found| == |orders| && forall k :: 0 <= k < |found| ==> found[k] == orders[k].id
    ensures forall id :: id in found <==> id in book
    ensures forall i, j :: 0 <= i < j < |found| ==> found[i] != found[j]
  {
    forall id | id in book
      ensures id in found
    {
      assert Contains(orders, book[id]);
      var k :| 0 <= k < |orders| && orders[k] == book[id];
      assert found[k] == id;
    }
  }

  /** Both steps of a replacement's total: subtract the old quantity, add the new one. */
  lemma ReplacedTotal(book: Book, o: Order)
    requires o.id in book && Acceptable(o)
    ensures Wrap(Wrap(Wrap(Sum(book)) - book[o.id].quantity) + o.quantity) == Wrap(Sum(book[o.id := o]))
  {
    ApplyMovesSum(book, Replace(o, o));
    WrapTwice(Sum(book), book[o.id].quantity, o.quantity);
  }

  /** The incremental total stays the sum modulo 2^64. */
  lemma TotalFollows(book: Book, op: Op)
    ensures Wrap(Wrap(Sum(book)) + Change(book, op)) == Wrap(Sum(Apply(book, op)))
  {
    ApplyMovesSum(book, op);
    WrapShift(Sum(book), Change(book, op));
  }

  /** What the price queries report for the given prices, added up in 64-bit arithmetic. */
  ghost function ReportedSum(book: Book, prices: seq<Word>): Word {
    if prices == [] then 0 else Wrap(Wrap(Sum(Level(book, prices[0]))) + ReportedSum(book, prices[1..]))
  }

  lemma {:induction false} ReportedSumWraps(book: Book, prices: seq<Word>)
    ensures ReportedSum(book, prices) == Wrap(SumOfLevels(book, prices))
  {
    if prices != [] {
      var first, rest := Sum(Level(book, prices[0])), SumOfLevels(book, prices[1..]);
      ReportedSumWraps(book, prices[1..]);
      WrapShift(first, Wrap(rest));
      WrapShift(rest, first);
    }
  }

  /** The reported quantities of the distinct resting prices add up, in 64-bit arithmetic, to the maintained total. */
  lemma ReportedLevelsGiveTotal(side: OrderSide, prices: seq<Word>)
    requires side.Valid()
    requires forall i, j :: 0 <= i < j < |prices| ==> prices[i] != prices[j]
    requires forall id :: id in side.ids ==> side.ids[id].price in prices
    ensures ReportedSum(side.ids, prices) == side.total
  {
    LevelsPartition(side.ids, prices);
    ReportedSumWraps(side.ids, prices);
  }

  // ---------- The book ----------

  /** What an update says about one side. */
  ghost predicate Reports(side: Side, book: Book, price: Word, quantity: Word, total: Word) {
    && (if book == map[] then price == 0 else exists best :: IsBest(side, best, book) && best.price == price)
    && quantity == Wrap(Sum(Level(book, price)))
    && total == Wrap(Sum(book))
  }

  class OrderBook {
    const bids: OrderSide
    const asks: OrderSide

    ghost predicate Valid()
      reads this, bids, asks
    {
      bids != asks && bids.side == Bid && asks.side == Ask && bids.Valid() && asks.Valid()
    }

    constructor ()
      ensures Valid() && fresh(bids) && fresh(asks) && bids.ids == map[] && asks.ids == map[]
    {
      bids := new OrderSide(Bid);
      asks := new OrderSide(Ask);
    }

    method NewBid(order: Order)
      requires Valid()
      modifies bids
      ensures Valid() && bids.ids == Apply(old(bids.ids), New(order))
      ensures bids.ids == if order.price != 0 && order.quantity != 0 && order.id !in old(bids.ids)
                          then old(bids.ids)[order.id := order] else old(bids.ids)
    {
      bids.NewOrder(order);
    }

    method NewAsk(order: Order)
      requires Valid()
      modifies asks
      ensures Valid() && asks.ids == Apply(old(asks.ids), New(order))
      ensures asks.ids == if order.price != 0 && order.quantity != 0 && order.id !in old(asks.ids)
                          then old(asks.ids)[order.id := order] else old(asks.ids)
    {
      asks.NewOrder(order);
    }

    method CancelBid(id: OrderId)
      requires Valid()
      modifies bids
      ensures Valid() && bids.ids == Apply(old(bids.ids), Cancel(id))
      ensures bids.ids == old(bids.ids) - {id}
    {
      bids.CancelOrder(id);
    }

    method CancelAsk(id: OrderId)
      requires Valid()
      modifies asks
      ensures Valid() && asks.ids == Apply(old(asks.ids), Cancel(id))
      ensures asks.ids == old(asks.ids) - {id}
    {
      asks.CancelOrder(id);
    }

    method ReplaceBid(oldOrder: Order, newOrder: Order)
      requires Valid()
      modifies bids
      ensures Valid() && bids.ids == Apply(old(bids.ids), Replace(oldOrder, newOrder))
      ensures bids.ids == if newOrder.price != 0 && newOrder.quantity != 0 && oldOrder.id == newOrder.id
                             && oldOrder.id in old(bids.ids)
                          then old(bids.ids)[oldOrder.id := newOrder] else old(bids.ids)
    {
      bids.ReplaceOrder(oldOrder, newOrder);
    }

    method ReplaceAsk(oldOrder: Order, newOrder: Order)
      requires Valid()
      modifies asks
      ensures Valid() && asks.ids == Apply(old(asks.ids), Replace(oldOrder, newOrder))
      ensures asks.ids == if newOrder.price != 0 && newOrder.quantity != 0 && oldOrder.id == newOrder.id
                             && oldOrder.id in old(asks.ids)
                          then old(asks.ids)[oldOrder.id := newOrder] else old(asks.ids)
    {
      asks.ReplaceOrder(oldOrder, newOrder);
    }

    method BestBid() returns (best: Order)
      requires Valid()
      ensures if bids.ids == map[] then best == Order(0, 0, 0) else IsBest(Bid, best, bids.ids)
    {
      best := bids.Best();
    }

    method BestAsk() returns (best: Order)
      requires Valid()
      ensures if asks.ids == map[] then best == Order(0, 0, 0) else IsBest(Ask, best, asks.ids)
    {
      best := asks.Best();
    }

    /** Without a concurrent writer: no update exactly when both sides are empty, else a report of each side. */
    method GenerateMDUpdate() returns (update: Option<MdUpdate>)
      requires Valid()
      ensures update == None <==> bids.ids == map[] && asks.ids == map[]
      ensures update.Some? ==>
                var u := update.value;
                && Reports(Bid, bids.ids, u.bestBidPrice, u.bestBidQty, u.totalBidQty)
                && Reports(Ask, asks.ids, u.bestAskPrice, u.bestAskQty, u.totalAskQty)
    {
      var bid := BestBid();
      var ask := BestAsk();
      if bid == Order(0, 0, 0) && ask == Order(0, 0, 0) {
        return None;
      }
      var bidIds, bidQty := bids.PriceInfo(bid.price);
      var askIds, askQty := asks.PriceInfo(ask.price);
      update := Some(MdUpdate(bid.price, bidQty, ask.price, askQty, bids.total, asks.total));
    }
  }

  /** The level reported is exact, positive and within the total whenever the side's true sum fits in 64 bits. */
  lemma ReportIsExact(side: Side, book: Book, price: Word, quantity: Word, total: Word)
    requires WellKeyed(book) && book != map[] && Reports(side, book, price, quantity, total)
    ensures total == Sum(book) <==> Sum(book) < WORD_MODULUS
    ensures quantity == Sum(Level(book, price)) <==> Sum(Level(book, price)) < WORD_MODULUS
    ensures Sum(book) < WORD_MODULUS ==> 0 < quantity <= total
  {
    var best :| IsBest(side, best, book) && best.price == price;
    LevelPositive(book, best.id);
    LevelBounded(book, price);
  }

  /** Beyond 64 bits the report wraps: two bids of 2^63 are reported as a best level and a total of zero. */
  lemma ReportCanWrapToZero() returns (book: Book)
    ensures WellKeyed(book) && book != map[] && Reports(Bid, book, 100, 0, 0)
  {
    var half: Word := 0x8000_0000_0000_0000;
    var a, b := Order(1, 100, half), Order(2, 100, half);
    book := map[1 := a, 2 := b];
    assert IsBest(Bid, a, book);
    SumWithout(book, 1);
    assert book - {1} == map[2 := b];
    SumWithout(map[2 := b], 2);
    assert map[2 := b] - {2} == map[];
    assert Level(book, 100) == book;
  }
}
