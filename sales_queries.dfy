/** The read side of the sales service (src/lib/salesService.ts): the
    filters of `getSales` and `getStockMovements`, the lookup of
    `getSaleById`, and the folds of `getSalesReport`. The Store's read
    functions are built from these. */
module SalesQueries {
  import opened Wrappers
  import opened Folds
  import opened Text
  import opened SalesTypes
  import opened SalesLedger

  // ==================== getSales ====================

  /** The optional filters of `getSales`. An absent status is None; an
      absent (or empty, and so falsy) string filter is "". */
  datatype SaleFilters = SaleFilters(
    status: Option<SaleStatus>,
    startDate: string,
    endDate: string,
    userId: string,
    customerId: string)

  /** A sale satisfies every filter that is supplied; the date bounds are
      inclusive string comparisons. */
  predicate MatchesFilters(s: Sale, f: SaleFilters)
  {
    && (f.status.None? || s.status == f.status.value)
    && (f.startDate == "" || LexLe(f.startDate, s.date))
    && (f.endDate == "" || LexLe(s.date, f.endDate))
    && (f.userId == "" || s.userId == f.userId)
    && (f.customerId == "" || s.customerId == Some(f.customerId))
  }

  function Matcher(f: SaleFilters): Sale -> bool
  {
    (s: Sale) => MatchesFilters(s, f)
  }

  /** `if (on) xs = xs.filter(p)`. */
  function Narrow<T>(xs: seq<T>, on: bool, p: T -> bool): seq<T>
  {
    if on then Filter(xs, p) else xs
  }

  function StatusStage(f: SaleFilters): Sale -> bool
  {
    (s: Sale) => f.status.None? || s.status == f.status.value
  }

  function StartStage(f: SaleFilters): Sale -> bool
  {
    (s: Sale) => LexLe(f.startDate, s.date)
  }

  function EndStage(f: SaleFilters): Sale -> bool
  {
    (s: Sale) => LexLe(s.date, f.endDate)
  }

  function UserStage(f: SaleFilters): Sale -> bool
  {
    (s: Sale) => s.userId == f.userId
  }

  function CustomerStage(f: SaleFilters): Sale -> bool
  {
    (s: Sale) => s.customerId == Some(f.customerId)
  }

  /** The chain of filters of `getSales`, each applied only when its filter
      is supplied, in the source's order. What it keeps are stored sales
      that satisfy every supplied filter, and it keeps each such sale. */
  function FilterSales(sales: seq<Sale>, f: SaleFilters): (r: seq<Sale>)
    ensures |r| <= |sales|
    ensures forall s :: s in r ==> s in sales && MatchesFilters(s, f)
    ensures forall s :: s in sales && MatchesFilters(s, f) ==> s in r
  {
    var byStatus := Narrow(sales, f.status.Some?, StatusStage(f));
    var fromStart := Narrow(byStatus, f.startDate != "", StartStage(f));
    var toEnd := Narrow(fromStart, f.endDate != "", EndStage(f));
    var byUser := Narrow(toEnd, f.userId != "", UserStage(f));
    NarrowKeeps(sales, f.status.Some?, StatusStage(f));
    NarrowKeeps(byStatus, f.startDate != "", StartStage(f));
    NarrowKeeps(fromStart, f.endDate != "", EndStage(f));
    NarrowKeeps(toEnd, f.userId != "", UserStage(f));
    NarrowKeeps(byUser, f.customerId != "", CustomerStage(f));
    StagesMatch(f);
    Narrow(byUser, f.customerId != "", CustomerStage(f))
  }

  /** Passing every stage that is on is satisfying every supplied filter. */
  lemma StagesMatch(f: SaleFilters)
    ensures forall s :: MatchesFilters(s, f)
                        <==> && (!f.status.Some? || StatusStage(f)(s))
                             && (!(f.startDate != "") || StartStage(f)(s))
                             && (!(f.endDate != "") || EndStage(f)(s))
                             && (!(f.userId != "") || UserStage(f)(s))
                             && (!(f.customerId != "") || CustomerStage(f)(s))
  {
  }

  /** A stage keeps, of its input, exactly what passes it when it is on. */
  lemma NarrowKeeps<T>(xs: seq<T>, on: bool, p: T -> bool)
    ensures |Narrow(xs, on, p)| <= |xs|
    ensures forall x :: x in Narrow(xs, on, p) <==> x in xs && (!on || p(x))
  {
    if on {
      forall x | x in Filter(xs, p) ensures x in xs && p(x) {
        var k :| 0 <= k < |Filter(xs, p)| && Filter(xs, p)[k] == x;
      }
      forall x | x in xs && p(x) ensures x in Filter(xs, p) {
        var k :| 0 <= k < |xs| && xs[k] == x;
      }
    }
  }

  lemma NarrowAppend<T>(xs: seq<T>, ys: seq<T>, on: bool, p: T -> bool)
    ensures Narrow(xs + ys, on, p) == Narrow(xs, on, p) + Narrow(ys, on, p)
  {
    if on {
      FilterAppend(xs, ys, p);
    }
  }

  lemma FilterSalesAppend(xs: seq<Sale>, ys: seq<Sale>, f: SaleFilters)
    ensures FilterSales(xs + ys, f) == FilterSales(xs, f) + FilterSales(ys, f)
  {
    NarrowAppend(xs, ys, f.status.Some?, StatusStage(f));
    var a1 := Narrow(xs, f.status.Some?, StatusStage(f));
    var b1 := Narrow(ys, f.status.Some?, StatusStage(f));
    NarrowAppend(a1, b1, f.startDate != "", StartStage(f));
    var a2 := Narrow(a1, f.startDate != "", StartStage(f));
    var b2 := Narrow(b1, f.startDate != "", StartStage(f));
    NarrowAppend(a2, b2, f.endDate != "", EndStage(f));
    var a3 := Narrow(a2, f.endDate != "", EndStage(f));
    var b3 := Narrow(b2, f.endDate != "", EndStage(f));
    NarrowAppend(a3, b3, f.userId != "", UserStage(f));
    var a4 := Narrow(a3, f.userId != "", UserStage(f));
    var b4 := Narrow(b3, f.userId != "", UserStage(f));
    NarrowAppend(a4, b4, f.customerId != "", CustomerStage(f));
  }

  lemma FilterSalesSingle(x: Sale, f: SaleFilters)
    ensures FilterSales([x], f) == if MatchesFilters(x, f) then [x] else []
  {
    FilterSingle(x, StatusStage(f));
    FilterSingle(x, StartStage(f));
    FilterSingle(x, EndStage(f));
    FilterSingle(x, UserStage(f));
    FilterSingle(x, CustomerStage(f));
  }

  /** The chain keeps exactly the sales that satisfy every supplied filter,
      in their stored order. */
  lemma {:induction false} FilterSalesMatches(sales: seq<Sale>, f: SaleFilters)
    ensures FilterSales(sales, f) == Filter(sales, Matcher(f))
  {
    if |sales| > 0 {
      var init := sales[..|sales| - 1];
      var last := sales[|sales| - 1];
      FilterSalesMatches(init, f);
      FilterSalesSnoc(sales, f);
      FilterSalesSingle(last, f);
      assert Matcher(f)(last) == MatchesFilters(last, f);
      if !MatchesFilters(last, f) {
        assert FilterSales(init, f) + [] == FilterSales(init, f);
      }
    }
  }

  /** The chain over a list is the chain over all but its last sale, then
      the chain over that sale. */
  lemma FilterSalesSnoc(sales: seq<Sale>, f: SaleFilters)
    requires |sales| > 0
    ensures FilterSales(sales, f) == FilterSales(sales[..|sales| - 1], f) + FilterSales([sales[|sales| - 1]], f)
  {
    assert sales == sales[..|sales| - 1] + [sales[|sales| - 1]];
    FilterSalesAppend(sales[..|sales| - 1], [sales[|sales| - 1]], f);
  }

  // ==================== getStockMovements ====================

  function ProductStage(productId: string): StockMovement -> bool
  {
    (m: StockMovement) => m.productId == productId
  }

  /** The filter of `getStockMovements`, applied only when a product id is
      supplied. */
  function FilterMovements(ms: seq<StockMovement>, productId: string): seq<StockMovement>
  {
    Narrow(ms, productId != "", ProductStage(productId))
  }

  function SaleCreatedAt(s: Sale): string { s.createdAt }

  function MovementCreatedAt(m: StockMovement): string { m.createdAt }

  // ==================== getSalesReport ====================

  datatype ProductStats = ProductStats(productName: string, quantity: int, revenue: int)

  datatype UserStats = UserStats(userName: string, salesCount: int, revenue: int)

  /** The object `getSalesReport` returns; the three breakdowns are keyed by
      payment method, product id and user id. */
  datatype SalesReport = SalesReport(
    totalSales: nat,
    totalRevenue: int,
    totalDiscount: int,
    byPaymentMethod: map<string, int>,
    byProduct: map<string, ProductStats>,
    byUser: map<string, UserStats>)

  /** The filters `getSalesReport` passes to `getSales`. */
  function ConfirmedIn(startDate: string, endDate: string): SaleFilters
  {
    SaleFilters(Some(Confirmada), startDate, endDate, "", "")
  }

  function SaleTotal(s: Sale): int { s.total }

  function SaleDiscount(s: Sale): int { s.discount }

  /** The revenue per payment method: each sale adds its total to its
      method's entry, which starts at 0. */
  function PaymentTotals(sales: seq<Sale>): map<string, int>
  {
    if |sales| == 0 then map[] else AddPayment(PaymentTotals(sales[..|sales| - 1]), sales[|sales| - 1])
  }

  /** One sale's step of the per-method breakdown. */
  function AddPayment(acc: map<string, int>, s: Sale): map<string, int>
  {
    acc[s.paymentMethod := PaymentEntry(acc, s)]
  }

  /** The entry AddPayment writes for the sale's payment method. */
  function PaymentEntry(acc: map<string, int>, s: Sale): int
  {
    (if s.paymentMethod in acc then acc[s.paymentMethod] else 0) + s.total
  }

  /** The breakdown has an entry for exactly the payment methods that
      occur. */
  lemma {:induction false} PaymentTotalsKeys(sales: seq<Sale>)
    ensures forall pm :: pm in PaymentTotals(sales) <==> exists k :: 0 <= k < |sales| && sales[k].paymentMethod == pm
  {
    if |sales| > 0 {
      var init := sales[..|sales| - 1];
      PaymentTotalsKeys(init);
      assert forall k :: 0 <= k < |init| ==> sales[k] == init[k];
    }
  }

  /** The per-product figures of one sale's lines: a product's entry is
      created with the line's name the first time it is seen, then every
      line adds its quantity and subtotal. */
  function AddLines(acc: map<string, ProductStats>, items: seq<SaleItem>): map<string, ProductStats>
  {
    if |items| == 0 then acc
    else
      var before := AddLines(acc, items[..|items| - 1]);
      var item := items[|items| - 1];
      var entry := if item.productId in before then before[item.productId]
                   else ProductStats(item.productName, 0, 0);
      before[item.productId := entry.(quantity := entry.quantity + item.quantity,
                                      revenue := entry.revenue + item.subtotal)]
  }

  function ProductTotals(sales: seq<Sale>): map<string, ProductStats>
  {
    if |sales| == 0 then map[] else AddLines(ProductTotals(sales[..|sales| - 1]), sales[|sales| - 1].items)
  }

  /** Revenue the lines bring for one product. */
  function RevenueFor(items: seq<SaleItem>, id: string): int
  {
    if |items| == 0 then 0
    else
      var last := items[|items| - 1];
      RevenueFor(items[..|items| - 1], id) + (if last.productId == id then last.subtotal else 0)
  }

  /** Quantity of one product sold over a list of sales. */
  function SoldQuantity(sales: seq<Sale>, id: string): int
  {
    if |sales| == 0 then 0 else SoldQuantity(sales[..|sales| - 1], id) + QuantityFor(sales[|sales| - 1].items, id)
  }

  /** Revenue of one product over a list of sales. */
  function SoldRevenue(sales: seq<Sale>, id: string): int
  {
    if |sales| == 0 then 0 else SoldRevenue(sales[..|sales| - 1], id) + RevenueFor(sales[|sales| - 1].items, id)
  }

  /** Folding lines into the breakdown adds each product's quantity and
      revenue over those lines to its entry, creating entries only for the
      products the lines name. */
  lemma {:induction false} AddLinesEffect(acc: map<string, ProductStats>, items: seq<SaleItem>, id: string)
    ensures id in AddLines(acc, items) <==> id in acc || exists k :: 0 <= k < |items| && items[k].productId == id
    ensures id in AddLines(acc, items) ==>
              && AddLines(acc, items)[id].quantity == (if id in acc then acc[id].quantity else 0) + QuantityFor(items, id)
              && AddLines(acc, items)[id].revenue == (if id in acc then acc[id].revenue else 0) + RevenueFor(items, id)
  {
    if |items| > 0 {
      var init := items[..|items| - 1];
      AddLinesEffect(acc, init, id);
      assert forall k :: 0 <= k < |init| ==> items[k] == init[k];
      if id !in AddLines(acc, init) {
        LinesNothing(init, id);
      }
    }
  }

  /** Each product's entry in the report holds the quantity sold and the
      revenue made over all the sales, and there is an entry for exactly
      the products some line names. */
  lemma {:induction false} ProductTotalsEffect(sales: seq<Sale>, id: string)
    ensures id in ProductTotals(sales) <==>
              exists k, j :: 0 <= k < |sales| && 0 <= j < |sales[k].items| && sales[k].items[j].productId == id
    ensures id in ProductTotals(sales) ==>
              && ProductTotals(sales)[id].quantity == SoldQuantity(sales, id)
              && ProductTotals(sales)[id].revenue == SoldRevenue(sales, id)
  {
    if |sales| > 0 {
      var init := sales[..|sales| - 1];
      var last := sales[|sales| - 1];
      ProductTotalsEffect(init, id);
      AddLinesEffect(ProductTotals(init), last.items, id);
      assert forall k :: 0 <= k < |init| ==> sales[k] == init[k];
      if id !in ProductTotals(init) {
        assert SoldQuantity(init, id) == 0 && SoldRevenue(init, id) == 0 by {
          SoldNothing(init, id);
        }
      }
    }
  }

  /** A product no line names has sold nothing. */
  lemma {:induction false} SoldNothing(sales: seq<Sale>, id: string)
    requires forall k, j :: 0 <= k < |sales| && 0 <= j < |sales[k].items| ==> sales[k].items[j].productId != id
    ensures SoldQuantity(sales, id) == 0 && SoldRevenue(sales, id) == 0
  {
    if |sales| > 0 {
      var init := sales[..|sales| - 1];
      assert forall k :: 0 <= k < |init| ==> sales[k] == init[k];
      SoldNothing(init, id);
      LinesNothing(sales[|sales| - 1].items, id);
    }
  }

  lemma {:induction false} LinesNothing(items: seq<SaleItem>, id: string)
    requires forall j :: 0 <= j < |items| ==> items[j].productId != id
    ensures QuantityFor(items, id) == 0 && RevenueFor(items, id) == 0
  {
    if |items| > 0 {
      LinesNothing(items[..|items| - 1], id);
    }
  }

  /** The per-user figures: a user's entry is created with the sale's user
      name the first time the user is seen, then every sale counts once
      and adds its total. */
  function UserTotals(sales: seq<Sale>): map<string, UserStats>
  {
    if |sales| == 0 then map[] else AddUserSale(UserTotals(sales[..|sales| - 1]), sales[|sales| - 1])
  }

  /** One sale's step of the per-user breakdown. */
  function AddUserSale(acc: map<string, UserStats>, s: Sale): map<string, UserStats>
  {
    acc[s.userId := UserEntry(acc, s)]
  }

  /** The entry AddUserSale writes for the sale's user. */
  function UserEntry(acc: map<string, UserStats>, s: Sale): UserStats
  {
    var entry := if s.userId in acc then acc[s.userId] else UserStats(s.userName, 0, 0);
    entry.(salesCount := entry.salesCount + 1, revenue := entry.revenue + s.total)
  }

  /** The folds of `getSalesReport` over an already selected list of
      sales: the count, revenue and discount; the per-method and per-user
      revenues add up to the revenue and the per-user counts to the count;
      each product's entry gives what its lines sold. */
  function Report(sales: seq<Sale>): (r: SalesReport)
    ensures r.totalSales == |sales| && r.totalRevenue == SumBy(sales, SaleTotal)
            && r.totalDiscount == SumBy(sales, SaleDiscount)
    ensures MapSumBy(r.byPaymentMethod, Amount) == r.totalRevenue
    ensures MapSumBy(r.byUser, UserSalesCount) == r.totalSales
    ensures MapSumBy(r.byUser, UserRevenue) == r.totalRevenue
    ensures forall id :: id in r.byProduct ==>
              && r.byProduct[id].quantity == SoldQuantity(sales, id)
              && r.byProduct[id].revenue == SoldRevenue(sales, id)
  {
    PaymentTotalsSum(sales);
    UserCountsSum(sales);
    UserRevenueSum(sales);
    assert forall id :: id in ProductTotals(sales) ==>
             && ProductTotals(sales)[id].quantity == SoldQuantity(sales, id)
             && ProductTotals(sales)[id].revenue == SoldRevenue(sales, id) by {
      forall id | id in ProductTotals(sales) {
        ProductTotalsEffect(sales, id);
      }
    }
    SalesReport(|sales|, SumBy(sales, SaleTotal), SumBy(sales, SaleDiscount),
                PaymentTotals(sales), ProductTotals(sales), UserTotals(sales))
  }

  // ==================== sums over the breakdowns ====================

  ghost function PickKey<K, V>(m: map<K, V>): K
    requires |m| > 0
  {
    assert m.Keys != {};
    var k :| k in m; k
  }

  /** The sum of f over the values of a map. */
  ghost function MapSumBy<K, V>(m: map<K, V>, f: V -> int): int
    decreases |m|
  {
    if |m| == 0 then 0
    else
      var k := PickKey(m);
      assert (m - {k}).Keys == m.Keys - {k};
      f(m[k]) + MapSumBy(m - {k}, f)
  }

  /** Any entry can be taken out of the sum first. */
  lemma {:induction false} MapSumByRemove<K, V>(m: map<K, V>, k: K, f: V -> int)
    requires k in m
    ensures MapSumBy(m, f) == f(m[k]) + MapSumBy(m - {k}, f)
    decreases |m|
  {
    var k' := PickKey(m);
    if k' != k {
      RemoveTwo(m, k, k');
      MapSumByRemove(m - {k'}, k, f);
      MapSumByRemove(m - {k}, k', f);
    }
  }

  /** Removing two different keys, in either order. */
  lemma RemoveTwo<K, V>(m: map<K, V>, k: K, k': K)
    requires k in m && k' in m && k != k'
    ensures k in m - {k'} && k' in m - {k}
    ensures |m - {k}| < |m| && |m - {k'}| < |m|
    ensures (m - {k'})[k] == m[k] && (m - {k})[k'] == m[k']
    ensures m - {k'} - {k} == m - {k} - {k'}
  {
    assert (m - {k'}).Keys == m.Keys - {k'};
    assert (m - {k}).Keys == m.Keys - {k};
  }

  /** Setting an entry replaces its share of the sum. */
  lemma MapSumByUpdate<K, V>(m: map<K, V>, k: K, v: V, f: V -> int)
    ensures MapSumBy(m[k := v], f) == MapSumBy(m, f) - (if k in m then f(m[k]) else 0) + f(v)
  {
    MapSumByRemove(m[k := v], k, f);
    UpdateThenRemove(m, k, v);
    if k in m {
      MapSumByRemove(m, k, f);
    }
  }

  /** Setting an entry to a value worth `delta` more than the old entry (or
      than nothing) adds `delta` to the sum. */
  lemma MapSumByAdd<K, V>(m: map<K, V>, k: K, v: V, f: V -> int, delta: int)
    requires f(v) == (if k in m then f(m[k]) else 0) + delta
    ensures MapSumBy(m[k := v], f) == MapSumBy(m, f) + delta
  {
    MapSumByUpdate(m, k, v, f);
  }

  lemma UpdateThenRemove<K, V>(m: map<K, V>, k: K, v: V)
    ensures m[k := v] - {k} == m - {k}
    ensures k !in m ==> m - {k} == m
  {
  }

  function Amount(v: int): int { v }

  function UserSalesCount(u: UserStats): int { u.salesCount }

  function UserRevenue(u: UserStats): int { u.revenue }

  /** One sale adds its total to the per-method sum. */
  lemma AddPaymentSum(acc: map<string, int>, s: Sale)
    ensures MapSumBy(AddPayment(acc, s), Amount) == MapSumBy(acc, Amount) + s.total
  {
    var v := PaymentEntry(acc, s);
    assert Amount(v) == (if s.paymentMethod in acc then Amount(acc[s.paymentMethod]) else 0) + s.total;
    MapSumByAdd(acc, s.paymentMethod, v, Amount, s.total);
  }

  /** One sale adds one to the per-user counts. */
  lemma AddUserSaleCount(acc: map<string, UserStats>, s: Sale)
    ensures MapSumBy(AddUserSale(acc, s), UserSalesCount) == MapSumBy(acc, UserSalesCount) + 1
  {
    var u := UserEntry(acc, s);
    assert UserSalesCount(u) == (if s.userId in acc then UserSalesCount(acc[s.userId]) else 0) + 1;
    MapSumByAdd(acc, s.userId, u, UserSalesCount, 1);
  }

  /** One sale adds its total to the per-user revenues. */
  lemma AddUserSaleRevenue(acc: map<string, UserStats>, s: Sale)
    ensures MapSumBy(AddUserSale(acc, s), UserRevenue) == MapSumBy(acc, UserRevenue) + s.total
  {
    var u := UserEntry(acc, s);
    assert UserRevenue(u) == (if s.userId in acc then UserRevenue(acc[s.userId]) else 0) + s.total;
    MapSumByAdd(acc, s.userId, u, UserRevenue, s.total);
  }

  /** The per-payment-method revenues add up to the total revenue. */
  lemma {:induction false} PaymentTotalsSum(sales: seq<Sale>)
    ensures MapSumBy(PaymentTotals(sales), Amount) == SumBy(sales, SaleTotal)
  {
    if |sales| > 0 {
      PaymentTotalsSum(sales[..|sales| - 1]);
      AddPaymentSum(PaymentTotals(sales[..|sales| - 1]), sales[|sales| - 1]);
    }
  }

  /** The per-user sale counts add up to the number of sales. */
  lemma {:induction false} UserCountsSum(sales: seq<Sale>)
    ensures MapSumBy(UserTotals(sales), UserSalesCount) == |sales|
  {
    if |sales| > 0 {
      UserCountsSum(sales[..|sales| - 1]);
      AddUserSaleCount(UserTotals(sales[..|sales| - 1]), sales[|sales| - 1]);
    }
  }

  /** The per-user revenues add up to the total revenue. */
  lemma {:induction false} UserRevenueSum(sales: seq<Sale>)
    ensures MapSumBy(UserTotals(sales), UserRevenue) == SumBy(sales, SaleTotal)
  {
    if |sales| > 0 {
      UserRevenueSum(sales[..|sales| - 1]);
      AddUserSaleRevenue(UserTotals(sales[..|sales| - 1]), sales[|sales| - 1]);
    }
  }
}
