/**
 * Order generation (CassandraDDL.placeOrders): the product list read back
 * from the catalog, the per-iteration customer, quantity and product picks,
 * the order built from them and the 100001-iteration driver loop.
 *
 * java.util.Random, the time-based order id, the write time stamp and the
 * store's answer to each insert come in as parameters.
 */
module Orders {

  import opened Wrappers
  import opened Customers

  /** The driver loop runs i = 0 .. 100000. */
  const OrderCount: nat := 100001

  /** A progress line is printed when i is a multiple of this. */
  const CheckpointEvery: nat := 1000

  /** `nextInt(99) + 1` draws the quantity. */
  const QuantityBound: int := 99

  /** The quantity clamp: above 100 becomes 99. */
  const QuantityClampAbove: int := 100
  const QuantityClampTo: int := 99

  /** The product index clamp: above 99 becomes 99. */
  const MaxProductIndex: int := 99

  /**
   * One row of `SELECT sku, name, regular_price FROM product_catalog`, which
   * is also what one productList entry holds. A null name stays null here; the
   * driver reads a null price as 0.0.
   */
  datatype ProductSummary = ProductSummary(sku: string, name: Option<string>, regularPrice: real)

  /**
   * The frozen `order_line` value embedded in an order. The product name is
   * the text spliced into the insert, so it is never null.
   */
  datatype OrderLine = OrderLine(
    sku: string, productName: string, quantity: int, unitPrice: real, totalPrice: real)

  /** A row of `orders`: customer, time-based order id, date, order lines. */
  datatype Order = Order(customerId: string, orderId: nat, date: int, orderLines: seq<OrderLine>)

  /** The values `rand.nextInt` returned in one iteration, before the `+ 700` and `+ 1`. */
  datatype Draws = Draws(customer: int, quantity: int, product: int)

  /** What one iteration takes from outside: its draws, `UUIDs.timeBased()` and `dateof(now())`. */
  datatype Tick = Tick(draws: Draws, orderId: nat, date: int)

  /** The exceptions that end placeOrders; none of them is caught. */
  datatype OrderError =
    | IllegalArgument   // nextInt(0) on an empty product list
    | IndexOutOfBounds  // productList read or written past its end
    | NullPointer       // an entry of productList never filled
    | WriteFailed       // the store refused the insert

  /** The ranges `nextInt` documents for its three calls, given the product list length n. */
  predicate DrawsInRange(d: Draws, n: int) {
    0 <= d.customer < PoolHigh - PoolLow + 1
    && 0 <= d.quantity < QuantityBound
    && (n > 0 ==> 0 <= d.product < n)
  }

  /** The quantity: draw + 1, then the clamp, which never fires. */
  function QuantityFromDraw(draw: int): (q: int)
    requires 0 <= draw < QuantityBound
    ensures 1 <= q <= 99
    ensures q == draw + 1
  {
    var q := draw + 1;
    if q > QuantityClampAbove then QuantityClampTo else q
  }

  /**
   * The product index: draw + 1, clamped to 99. Index 0 is never picked, and
   * the index lies inside a list of n entries exactly when n is above 99 or
   * the draw is not the last one.
   */
  function ProductIndex(n: int, draw: int): (idx: int)
    requires 0 <= draw < n
    ensures 1 <= idx <= n && idx <= MaxProductIndex
    ensures idx < n <==> n > MaxProductIndex || draw < n - 1
  {
    var idx := draw + 1;
    if idx > MaxProductIndex then MaxProductIndex else idx
  }

  /** The indices some draw produces for a list of n entries. */
  ghost function SelectableIndices(n: int): set<int> {
    set d | 0 <= d < n :: ProductIndex(n, d)
  }

  /** The indices the clamp can produce for a list of n entries are exactly 1 .. min(n, 99). */
  lemma SelectableIndicesRange(n: int)
    ensures forall k :: k in SelectableIndices(n) <==> 1 <= k <= n && k <= MaxProductIndex
  {
    forall k | 1 <= k <= n && k <= MaxProductIndex ensures k in SelectableIndices(n) {
      assert ProductIndex(n, k - 1) == k;
    }
  }

  /** The line total: quantity times unit price (a double product in the driver, exact here). */
  function LineTotal(quantity: int, unitPrice: real): real {
    quantity as real * unitPrice
  }

  /**
   * The text Java's string concatenation splices in for a possibly null
   * name: the name itself, or "null". A null name and the name "null"
   * are written the same way.
   */
  function NameText(name: Option<string>): (text: string)
    ensures name.Some? ==> text == name.value
    ensures text == "null" <==> name == None || name == Some("null")
  {
    match name
    case Some(n) => n
    case None => "null"
  }

  /** The line carries the sku, the name as written and the price of the entry. */
  predicate LineFromEntry(line: OrderLine, p: ProductSummary) {
    line.sku == p.sku && line.productName == NameText(p.name) && line.unitPrice == p.regularPrice
  }

  /** An order as the generator builds it from a list entry. */
  predicate ValidOrder(o: Order, productList: seq<Option<ProductSummary>>) {
    |o.orderLines| == 1
    && DecodeCustomer(o.customerId).Some?
    && var line := o.orderLines[0];
       1 <= line.quantity <= 99
       && line.totalPrice == LineTotal(line.quantity, line.unitPrice)
       && exists k :: 1 <= k <= MaxProductIndex && k < |productList|
            && productList[k].Some? && LineFromEntry(line, productList[k].value)
  }

  /**
   * One iteration of the order loop after the pause: pick customer, quantity
   * and product, and build the order with its single order line.
   */
  function PlaceOne(productList: seq<Option<ProductSummary>>, t: Tick): (r: Result<Order, OrderError>)
    requires DrawsInRange(t.draws, |productList|)
    ensures r.Ok? ==> |r.value.orderLines| == 1 && r.value.orderId == t.orderId && r.value.date == t.date
  {
    var customer := EncodeCustomer(CustomerFromDraw(t.draws.customer));
    var quantity := QuantityFromDraw(t.draws.quantity);
    if |productList| == 0 then Err(IllegalArgument)
    else
      var idx := ProductIndex(|productList|, t.draws.product);
      if idx >= |productList| then Err(IndexOutOfBounds)
      else match productList[idx]
        case None => Err(NullPointer)
        case Some(p) =>
          var line := OrderLine(p.sku, NameText(p.name), quantity, p.regularPrice, LineTotal(quantity, p.regularPrice));
          Ok(Order(customer, t.orderId, t.date, [line]))
  }

  /**
   * An iteration fails on an empty list (nextInt(0)), reads past the end
   * exactly when the clamped index equals the list length, fails on an entry
   * that was never filled, and otherwise succeeds.
   */
  lemma PlaceOneOutcome(productList: seq<Option<ProductSummary>>, t: Tick)
    requires DrawsInRange(t.draws, |productList|)
    ensures |productList| == 0 ==> PlaceOne(productList, t) == Err(IllegalArgument)
    ensures |productList| > 0 ==>
      var idx := ProductIndex(|productList|, t.draws.product);
      (idx == |productList| <==> PlaceOne(productList, t) == Err(IndexOutOfBounds))
      && (PlaceOne(productList, t).Ok? <==> idx < |productList| && productList[idx].Some?)
      && (idx < |productList| && productList[idx].None? ==> PlaceOne(productList, t) == Err(NullPointer))
  {
  }

  /**
   * A successful iteration builds the order for the drawn customer, the drawn
   * quantity and the given order id and date, whose line carries the sku,
   * name (a null name as "null") and price of the entry the draw selects.
   */
  lemma PlaceOneOrder(productList: seq<Option<ProductSummary>>, t: Tick)
    requires DrawsInRange(t.draws, |productList|)
    requires PlaceOne(productList, t).Ok?
    ensures var o := PlaceOne(productList, t).value;
      |o.orderLines| == 1
      && o.customerId == EncodeCustomer(CustomerFromDraw(t.draws.customer))
      && o.orderLines[0].quantity == t.draws.quantity + 1
      && o.orderLines[0].totalPrice == LineTotal(o.orderLines[0].quantity, o.orderLines[0].unitPrice)
      && o.orderId == t.orderId && o.date == t.date
      && productList[ProductIndex(|productList|, t.draws.product)].Some?
      && LineFromEntry(o.orderLines[0], productList[ProductIndex(|productList|, t.draws.product)].value)
  {
    var q := QuantityFromDraw(t.draws.quantity);
    var idx := ProductIndex(|productList|, t.draws.product);
    var p := productList[idx].value;
    var line := OrderLine(p.sku, NameText(p.name), q, p.regularPrice, LineTotal(q, p.regularPrice));
    assert PlaceOne(productList, t) == Ok(Order(EncodeCustomer(CustomerFromDraw(t.draws.customer)), t.orderId, t.date, [line]));
  }

  /** A successful iteration builds a valid order over the product list. */
  lemma PlaceOneValid(productList: seq<Option<ProductSummary>>, t: Tick)
    requires DrawsInRange(t.draws, |productList|)
    requires PlaceOne(productList, t).Ok?
    ensures ValidOrder(PlaceOne(productList, t).value, productList)
  {
    PlaceOneOrder(productList, t);
    var o := PlaceOne(productList, t).value;
    var idx := ProductIndex(|productList|, t.draws.product);
    DecodeEncode(CustomerFromDraw(t.draws.customer));
    assert 1 <= idx <= MaxProductIndex && idx < |productList|;
  }

  /** With at least 100 filled entries no iteration fails. */
  lemma LargeCatalogNeverFails(productList: seq<Option<ProductSummary>>, t: Tick)
    requires |productList| > MaxProductIndex
    requires forall k :: 0 <= k < |productList| ==> productList[k].Some?
    requires DrawsInRange(t.draws, |productList|)
    ensures PlaceOne(productList, t).Ok?
  {
    PlaceOneOutcome(productList, t);
  }

  /** With 1 to 99 entries, the last draw reads one past the end of the list. */
  lemma SmallCatalogLastDrawFails(productList: seq<Option<ProductSummary>>, t: Tick)
    requires 1 <= |productList| <= MaxProductIndex
    requires DrawsInRange(t.draws, |productList|) && t.draws.product == |productList| - 1
    ensures PlaceOne(productList, t) == Err(IndexOutOfBounds)
  {
    PlaceOneOutcome(productList, t);
  }

  /** Every element of `cps` is an iteration number below m that is a multiple of 1000. */
  predicate MultiplesBelow(cps: seq<nat>, m: nat) {
    forall k :: 0 <= k < |cps| ==> cps[k] < m && cps[k] % CheckpointEvery == 0
  }

  predicate StrictlyIncreasing(cps: seq<nat>) {
    forall k, l :: 0 <= k < l < |cps| ==> cps[k] < cps[l]
  }

  /** The progress checkpoints of the first m iterations: every i < m with i % 1000 == 0. */
  function Checkpoints(m: nat): (cps: seq<nat>)
    ensures MultiplesBelow(cps, m) && StrictlyIncreasing(cps)
    decreases m
  {
    if m == 0 then []
    else Checkpoints(m - 1) + (if (m - 1) % CheckpointEvery == 0 then [m - 1] else [])
  }

  /** Iteration i adds itself to the checkpoints exactly when it is a multiple of 1000. */
  lemma CheckpointsStep(i: nat)
    ensures Checkpoints(i + 1) == Checkpoints(i) + (if i % CheckpointEvery == 0 then [i] else [])
  {
  }

  /** The k-th checkpoint is k * 1000, and there are ceil(m / 1000) of them. */
  lemma {:induction false} CheckpointsAreMultiples(m: nat)
    ensures |Checkpoints(m)| == (m + CheckpointEvery - 1) / CheckpointEvery
    ensures forall k :: 0 <= k < |Checkpoints(m)| ==> Checkpoints(m)[k] == k * CheckpointEvery
    decreases m
  {
    if m > 0 {
      CheckpointsAreMultiples(m - 1);
    }
  }

  /** A checkpoint is printed at iteration i exactly when i % 1000 == 0. */
  lemma CheckpointMembership(m: nat, i: int)
    ensures i in Checkpoints(m) <==> 0 <= i < m && i % CheckpointEvery == 0
  {
    CheckpointsAreMultiples(m);
    var cps := Checkpoints(m);
    if 0 <= i < m && i % CheckpointEvery == 0 {
      assert cps[i / CheckpointEvery] == i;
    }
  }

  /** A full run prints 101 progress lines, for 0, 1000, ..., 100000. */
  lemma FullRunCheckpoints()
    ensures |Checkpoints(OrderCount)| == 101
    ensures Checkpoints(OrderCount)[0] == 0 && Checkpoints(OrderCount)[100] == 100000
  {
    CheckpointsAreMultiples(OrderCount);
  }

  /** The first |placed| iterations all wrote their order, in order. */
  predicate PlacedPrefix(productList: seq<Option<ProductSummary>>, ticks: seq<Tick>, rejected: set<nat>,
                         placed: seq<Order>)
    requires forall i :: 0 <= i < |ticks| ==> DrawsInRange(ticks[i].draws, |productList|)
  {
    |placed| <= |ticks|
    && forall i :: 0 <= i < |placed| ==> PlaceOne(productList, ticks[i]) == Ok(placed[i]) && i !in rejected
  }

  /** One more iteration that succeeded and whose write was accepted extends the prefix. */
  lemma PlacedPrefixSnoc(productList: seq<Option<ProductSummary>>, ticks: seq<Tick>, rejected: set<nat>,
                         placed: seq<Order>, o: Order)
    requires forall i :: 0 <= i < |ticks| ==> DrawsInRange(ticks[i].draws, |productList|)
    requires PlacedPrefix(productList, ticks, rejected, placed) && |placed| < |ticks|
    requires PlaceOne(productList, ticks[|placed|]) == Ok(o) && |placed| !in rejected
    ensures PlacedPrefix(productList, ticks, rejected, placed + [o])
  {
    var longer := placed + [o];
    forall j | 0 <= j < |longer|
      ensures PlaceOne(productList, ticks[j]) == Ok(longer[j]) && j !in rejected
    {
      if j < |placed| {
        assert longer[j] == placed[j];
      }
    }
  }

  /**
   * What the loop leaves behind: the orders written are those of the first
   * iterations, in order; a full run writes 100001 of them; otherwise the
   * loop stopped at the first iteration that threw, after printing its
   * checkpoint.
   */
  predicate Generated(productList: seq<Option<ProductSummary>>, ticks: seq<Tick>, rejected: set<nat>,
                      placed: seq<Order>, checkpoints: seq<nat>, failure: Option<OrderError>)
    requires forall i :: 0 <= i < |ticks| ==> DrawsInRange(ticks[i].draws, |productList|)
  {
    PlacedPrefix(productList, ticks, rejected, placed)
    && (failure.None? ==> |placed| == |ticks| && checkpoints == Checkpoints(|ticks|))
    && (failure.Some? ==>
          var k := |placed|;
          k < |ticks| && checkpoints == Checkpoints(k + 1)
          && match PlaceOne(productList, ticks[k])
             case Err(e) => failure == Some(e)
             case Ok(_) => k in rejected && failure == Some(WriteFailed))
  }

  /** The loop ran all its iterations. */
  lemma GeneratedFull(productList: seq<Option<ProductSummary>>, ticks: seq<Tick>, rejected: set<nat>,
                      placed: seq<Order>, checkpoints: seq<nat>)
    requires forall i :: 0 <= i < |ticks| ==> DrawsInRange(ticks[i].draws, |productList|)
    requires PlacedPrefix(productList, ticks, rejected, placed)
    requires |placed| == |ticks| && checkpoints == Checkpoints(|ticks|)
    ensures Generated(productList, ticks, rejected, placed, checkpoints, None)
  {
  }

  /** Every order the loop writes is a valid order over the product list. */
  lemma GeneratedOrdersValid(productList: seq<Option<ProductSummary>>, ticks: seq<Tick>, rejected: set<nat>,
                             placed: seq<Order>, checkpoints: seq<nat>, failure: Option<OrderError>)
    requires forall i :: 0 <= i < |ticks| ==> DrawsInRange(ticks[i].draws, |productList|)
    requires Generated(productList, ticks, rejected, placed, checkpoints, failure)
    ensures forall i :: 0 <= i < |placed| ==> ValidOrder(placed[i], productList)
  {
    forall i | 0 <= i < |placed| ensures ValidOrder(placed[i], productList) {
      assert PlaceOne(productList, ticks[i]) == Ok(placed[i]);
      PlaceOneValid(productList, ticks[i]);
    }
  }

  /** The loop stopped at iteration |placed| after the earlier ones all succeeded. */
  lemma GeneratedStop(productList: seq<Option<ProductSummary>>, ticks: seq<Tick>, rejected: set<nat>,
                      placed: seq<Order>, checkpoints: seq<nat>, failure: Option<OrderError>)
    requires forall i :: 0 <= i < |ticks| ==> DrawsInRange(ticks[i].draws, |productList|)
    requires PlacedPrefix(productList, ticks, rejected, placed)
    requires |placed| < |ticks| && checkpoints == Checkpoints(|placed| + 1)
    requires PlaceOne(productList, ticks[|placed|]).Err? ==> failure == Some(PlaceOne(productList, ticks[|placed|]).error)
    requires PlaceOne(productList, ticks[|placed|]).Ok? ==> |placed| in rejected && failure == Some(WriteFailed)
    ensures Generated(productList, ticks, rejected, placed, checkpoints, failure)
  {
  }

  /** The order loop of placeOrders over an already built product list. */
  method GenerateOrders(productList: array<Option<ProductSummary>>, ticks: seq<Tick>, rejected: set<nat>)
    returns (placed: seq<Order>, checkpoints: seq<nat>, failure: Option<OrderError>)
    requires |ticks| == OrderCount
    requires forall i :: 0 <= i < |ticks| ==> DrawsInRange(ticks[i].draws, productList.Length)
    ensures Generated(productList[..], ticks, rejected, placed, checkpoints, failure)
  {
    placed, checkpoints, failure := [], [], None;
    ghost var list := productList[..];
    var i := 0;
    while i < OrderCount
      invariant 0 <= i <= OrderCount
      invariant |placed| == i && checkpoints == Checkpoints(i)
      invariant PlacedPrefix(list, ticks, rejected, placed)
    {
      if i % CheckpointEvery == 0 {
        checkpoints := checkpoints + [i];
      }
      CheckpointsStep(i);
      var order := PlaceOne(productList[..], ticks[i]);
      if order.Err? {
        failure := Some(order.error);
        GeneratedStop(list, ticks, rejected, placed, checkpoints, failure);
        return;
      }
      if i in rejected {
        failure := Some(WriteFailed);
        GeneratedStop(list, ticks, rejected, placed, checkpoints, failure);
        return;
      }
      PlacedPrefixSnoc(list, ticks, rejected, placed, order.value);
      placed := placed + [order.value];
      i := i + 1;
    }
    GeneratedFull(list, ticks, rejected, placed, checkpoints);
  }

  /** The product list after the first rows were copied into a fresh array of n entries. */
  function Materialized(rows: seq<ProductSummary>, n: nat): (list: seq<Option<ProductSummary>>)
    ensures |list| == n
    ensures forall k :: 0 <= k < n ==> (list[k].Some? <==> k < |rows|)
    ensures forall k :: 0 <= k < n && k < |rows| ==> list[k] == Some(rows[k])
  {
    seq(n, k requires 0 <= k < n => if k < |rows| then Some(rows[k]) else None)
  }

  /**
   * Builds productList: an array of `available` entries filled with the rows
   * in result order. A result with more rows than entries runs off the end.
   */
  method BuildProductList(rows: seq<ProductSummary>, available: nat)
    returns (productList: array<Option<ProductSummary>>, counter: nat, overflow: bool)
    ensures fresh(productList) && productList.Length == available
    ensures overflow <==> |rows| > available
    ensures counter == if overflow then available else |rows|
    ensures productList[..] == Materialized(rows[..counter], available)
  {
    productList := new Option<ProductSummary>[available](_ => None);
    counter := 0;
    overflow := false;
    while counter < |rows|
      invariant counter <= |rows| && counter <= available
      invariant productList[..] == Materialized(rows[..counter], available)
    {
      if counter >= available {
        overflow := true;
        return;
      }
      productList[counter] := Some(rows[counter]);
      counter := counter + 1;
      assert rows[..counter][..counter - 1] == rows[..counter - 1];
    }
    assert rows[..counter] == rows;
  }

  /**
   * placeOrders: build the product list from the catalog rows, then run the
   * order loop. `available` is the number of rows the driver reports before
   * fetching more.
   */
  method PlaceOrders(rows: seq<ProductSummary>, available: nat, ticks: seq<Tick>, rejected: set<nat>)
    returns (placed: seq<Order>, checkpoints: seq<nat>, failure: Option<OrderError>)
    requires |ticks| == OrderCount
    requires forall i :: 0 <= i < |ticks| ==> DrawsInRange(ticks[i].draws, available)
    ensures |rows| > available ==> placed == [] && checkpoints == [] && failure == Some(IndexOutOfBounds)
    ensures |rows| <= available ==>
      Generated(Materialized(rows, available), ticks, rejected, placed, checkpoints, failure)
  {
    var productList, counter, overflow := BuildProductList(rows, available);
    if overflow {
      return [], [], Some(IndexOutOfBounds);
    }
    assert rows[..counter] == rows;
    placed, checkpoints, failure := GenerateOrders(productList, ticks, rejected);
  }
}
