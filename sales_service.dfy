/** The sales service's store and its writes (src/lib/salesService.ts). The
    four local-storage collections are the four sequence fields of a Store;
    each operation reads and rewrites them in place, as the source does with
    its whole-collection read and save. */
module SalesService {
  import opened Wrappers
  import opened Folds
  import opened SalesTypes
  import opened SalesLedger
  import opened SalesQueries
  import opened Sorting

  class Store {
    var products: seq<Product>
    var sales: seq<Sale>
    var transactions: seq<CashierTransaction>
    var movements: seq<StockMovement>

    /** A store over whatever the four collections hold. */
    constructor (products0: seq<Product>, sales0: seq<Sale>,
                 transactions0: seq<CashierTransaction>, movements0: seq<StockMovement>)
      ensures products == products0 && sales == sales0
      ensures transactions == transactions0 && movements == movements0
    {
      products := products0;
      sales := sales0;
      transactions := transactions0;
      movements := movements0;
    }

    /** `updateProductStock`: false, and nothing written, when the product
        is missing or its stock would go negative; otherwise only that
        product's stock changes. */
    method UpdateProductStock(productId: string, quantityChange: int) returns (ok: bool)
      modifies this
      ensures ok == AdjustStock(old(products), productId, quantityChange).Some?
      ensures products == AdjustStock(old(products), productId, quantityChange).GetOr(old(products))
      ensures StocksNonNegative(old(products)) ==> StocksNonNegative(products)
      ensures sales == old(sales) && transactions == old(transactions) && movements == old(movements)
    {
      var index := ProductIndex(products, productId);
      ProductIndexSpec(products, productId);
      if index.None? {
        return false;
      }
      var product := products[index.value];
      var newStock := product.stock + quantityChange;
      if newStock < 0 {
        return false;
      }
      products := products[index.value := product.(stock := newStock)];
      AdjustStockSpec(old(products), productId, quantityChange);
      return true;
    }

    /** `createStockMovement`: appends one movement. */
    method CreateStockMovement(productId: string, productName: string, quantity: int, kind: MovementKind,
                               saleId: Option<string>, id: string, at: Stamp, user: User)
      modifies this
      ensures movements == old(movements) + [Movement(productId, productName, quantity, kind, saleId, id, at, user)]
      ensures products == old(products) && sales == old(sales) && transactions == old(transactions)
    {
      movements := movements + [Movement(productId, productName, quantity, kind, saleId, id, at, user)];
    }

    /** `createCashierTransaction`: appends one transaction. */
    method CreateCashierTransaction(kind: CashierKind, description: string, value: int, category: string,
                                    saleId: Option<string>, id: string, at: Stamp)
      modifies this
      ensures transactions == old(transactions) + [Transaction(kind, description, value, category, saleId, id, at)]
      ensures products == old(products) && sales == old(sales) && movements == old(movements)
    {
      transactions := transactions + [Transaction(kind, description, value, category, saleId, id, at)];
    }

    /** `createSale`. The k-th id and clock reading of env go, in order, to
        the sale (k = 0), the movement of line k - 1, and the cash-in. A
        missing customer name is the empty string. */
    method CreateSale(items: seq<SaleItem>, paymentMethod: string, customerName: string, discount: int,
                      observations: Option<string>, env: Env) returns (r: Result<Sale, SaleError>)
      modifies this
      // a failed validation touches nothing
      ensures var total := SumBy(items, ItemSubtotal) - discount;
              ValidateSale(old(products), items, paymentMethod, total).Some? ==>
                && r == Failure(ValidateSale(old(products), items, paymentMethod, total).value)
                && products == old(products) && sales == old(sales)
                && transactions == old(transactions) && movements == old(movements)
      // success: one sale, every line's stock taken, one movement per line,
      // one cash-in
      ensures var total := SumBy(items, ItemSubtotal) - discount;
              var sale := NewSale(items, paymentMethod, customerName, discount, observations,
                                  env.ids(0), env.clock(0), env.user);
              ValidateSale(old(products), items, paymentMethod, total).None?
              && SellLines(old(products), items, |items|).Some? ==>
                && r == Success(sale)
                && sales == old(sales) + [sale]
                && Some(products) == SellLines(old(products), items, |items|)
                && movements == old(movements) + LineMovements(items, |items|, Venda, sale.id, env, 1, 1)
                && transactions == old(transactions)
                                   + [SaleEntry(sale, env.ids(|items| + 1), env.clock(|items| + 1))]
      // a failed decrement: the sale is filtered out again, no cash-in, and
      // the decrements and movements of the earlier lines stay
      ensures var total := SumBy(items, ItemSubtotal) - discount;
              var sale := NewSale(items, paymentMethod, customerName, discount, observations,
                                  env.ids(0), env.clock(0), env.user);
              ValidateSale(old(products), items, paymentMethod, total).None?
              && SellLines(old(products), items, |items|).None? ==>
                && sales == WithoutId(old(sales) + [sale], sale.id)
                && transactions == old(transactions)
                && exists k :: 0 <= k < |items|
                     && r == Failure(StockUpdateFailed(items[k].productName))
                     && SellLines(old(products), items, k) == Some(products)
                     && SellLines(old(products), items, k + 1).None?
                     && movements == old(movements) + LineMovements(items, k, Venda, sale.id, env, 1, 1)
    {
      var subtotal := SumBy(items, ItemSubtotal);
      var total := subtotal - discount;
      var validation := ValidateSale(products, items, paymentMethod, total);
      assert validation == ValidateSale(old(products), items, paymentMethod, SumBy(items, ItemSubtotal) - discount);
      if validation.Some? {
        return Failure(validation.value);
      }
      r := RecordSale(items, paymentMethod, customerName, discount, observations, env);
    }

    /** What `createSale` does once validation has passed: builds and stores
        the sale, runs the stock loop over its lines and then either posts
        the cash-in or, when a decrement fails, filters the sale out
        again. */
    method RecordSale(items: seq<SaleItem>, paymentMethod: string, customerName: string, discount: int,
                      observations: Option<string>, env: Env) returns (r: Result<Sale, SaleError>)
      modifies this
      ensures var sale := NewSale(items, paymentMethod, customerName, discount, observations,
                                  env.ids(0), env.clock(0), env.user);
              SellLines(old(products), items, |items|).Some? ==>
                && r == Success(sale)
                && sales == old(sales) + [sale]
                && Some(products) == SellLines(old(products), items, |items|)
                && movements == old(movements) + LineMovements(items, |items|, Venda, sale.id, env, 1, 1)
                && transactions == old(transactions)
                                   + [SaleEntry(sale, env.ids(|items| + 1), env.clock(|items| + 1))]
      ensures var sale := NewSale(items, paymentMethod, customerName, discount, observations,
                                  env.ids(0), env.clock(0), env.user);
              SellLines(old(products), items, |items|).None? ==>
                && sales == WithoutId(old(sales) + [sale], sale.id)
                && transactions == old(transactions)
                && exists k :: 0 <= k < |items|
                     && r == Failure(StockUpdateFailed(items[k].productName))
                     && SellLines(old(products), items, k) == Some(products)
                     && SellLines(old(products), items, k + 1).None?
                     && movements == old(movements) + LineMovements(items, k, Venda, sale.id, env, 1, 1)
      ensures StocksNonNegative(old(products)) ==> StocksNonNegative(products)
    {
      var sale := NewSale(items, paymentMethod, customerName, discount, observations,
                          env.ids(0), env.clock(0), env.user);
      var salesRead := sales;
      sales := salesRead + [sale];

      var failedAt := SellItems(items, sale.id, env);
      if failedAt.Some? {
        SellLinesKeeps(old(products), items, failedAt.value);
        sales := WithoutId(salesRead + [sale], sale.id);
        return Failure(StockUpdateFailed(items[failedAt.value].productName));
      }

      SellLinesKeeps(old(products), items, |items|);
      CreateCashierTransaction(Entrada, "Venda #" + Last8(sale.id) + " - " + Shown(sale.customerName),
                               sale.total, "Vendas", Some(sale.id), env.ids(1 + |items|), env.clock(1 + |items|));
      return Success(sale);
    }

    /** The stock loop of `createSale`: decrements each line's product in
        order and logs its movement, stopping at the first decrement that
        fails and reporting that line. */
    method SellItems(items: seq<SaleItem>, saleId: string, env: Env) returns (failedAt: Option<nat>)
      modifies this
      ensures failedAt.None? <==> SellLines(old(products), items, |items|).Some?
      ensures failedAt.None? ==>
                && Some(products) == SellLines(old(products), items, |items|)
                && movements == old(movements) + LineMovements(items, |items|, Venda, saleId, env, 1, 1)
      ensures failedAt.Some? ==>
                && failedAt.value < |items|
                && SellLines(old(products), items, failedAt.value) == Some(products)
                && SellLines(old(products), items, failedAt.value + 1).None?
                && movements == old(movements) + LineMovements(items, failedAt.value, Venda, saleId, env, 1, 1)
      ensures sales == old(sales) && transactions == old(transactions)
    {
      var k := 0;
      while k < |items|
        invariant 0 <= k <= |items|
        invariant SellLines(old(products), items, k) == Some(products)
        invariant movements == old(movements) + LineMovements(items, k, Venda, saleId, env, 1, 1)
        invariant sales == old(sales) && transactions == old(transactions)
      {
        var sold := SellLine(old(products), old(movements), items, k, saleId, env);
        if !sold {
          SellLinesStop(old(products), items, k + 1);
          return Some(k);
        }
        k := k + 1;
      }
      return None;
    }

    /** One pass of the stock loop of `createSale`: decrements the product
        of line k and logs its movement, or, when the decrement fails,
        changes nothing and answers false. */
    method SellLine(ghost products0: seq<Product>, ghost movements0: seq<StockMovement>,
                    items: seq<SaleItem>, k: nat, saleId: string, env: Env) returns (sold: bool)
      modifies this
      requires k < |items|
      requires SellLines(products0, items, k) == Some(products)
      requires movements == movements0 + LineMovements(items, k, Venda, saleId, env, 1, 1)
      ensures sold <==> SellLines(products0, items, k + 1).Some?
      ensures sold ==> Some(products) == SellLines(products0, items, k + 1)
                       && movements == movements0 + LineMovements(items, k + 1, Venda, saleId, env, 1, 1)
      ensures !sold ==> products == old(products) && movements == old(movements)
      ensures sales == old(sales) && transactions == old(transactions)
    {
      var item := items[k];
      sold := UpdateProductStock(item.productId, -item.quantity);
      if sold {
        ghost var logged := LineMovements(items, k, Venda, saleId, env, 1, 1);
        CreateStockMovement(item.productId, item.productName, -item.quantity, Venda, Some(saleId),
                            env.ids(1 + k), env.clock(1 + k), env.user);
        AppendOne(movements0, logged, Movement(item.productId, item.productName, -item.quantity, Venda,
                                               Some(saleId), env.ids(1 + k), env.clock(1 + k), env.user));
      }
    }

    /** `cancelSale`. env.clock(0) stamps the cancellation; the movement of
        line k uses id k and clock reading k + 1; the cash-out uses the next
        id and clock reading. */
    method CancelSale(saleId: string, reason: Option<string>, env: Env) returns (r: Result<(), SaleError>)
      modifies this
      ensures SaleIndex(old(sales), saleId).None? ==>
                r == Failure(SaleNotFound) && UnchangedSince(old(products), old(sales), old(transactions), old(movements))
      ensures SaleIndex(old(sales), saleId).Some? && old(sales)[SaleIndex(old(sales), saleId).value].status == Cancelada ==>
                r == Failure(AlreadyCancelled) && UnchangedSince(old(products), old(sales), old(transactions), old(movements))
      ensures SaleIndex(old(sales), saleId).Some? && old(sales)[SaleIndex(old(sales), saleId).value].status == Confirmada ==>
                var i := SaleIndex(old(sales), saleId).value;
                var sale := old(sales)[i];
                var n := |sale.items|;
                && r == Success(())
                && sales == old(sales)[i := Cancelled(sale, env.clock(0).iso, reason)]
                && products == RestockLines(old(products), sale.items, n)
                && movements == old(movements) + LineMovements(sale.items, n, Cancelamento, sale.id, env, 0, 1)
                && transactions == old(transactions) + [ReversalEntry(sale, reason, env.ids(n), env.clock(n + 1))]
    {
      var index := SaleIndex(sales, saleId);
      if index.None? {
        return Failure(SaleNotFound);
      }
      var i := index.value;
      var sale := sales[i];
      if sale.status == Cancelada {
        return Failure(AlreadyCancelled);
      }
      var at := env.clock(0);
      sales := sales[i := Cancelled(sale, at.iso, reason)];

      RestockItems(sale.items, sale.id, env);

      var n := |sale.items|;
      var note := if reason.Some? && reason.value != "" then " (" + reason.value + ")" else "";
      CreateCashierTransaction(Saida, "Cancelamento Venda #" + Last8(sale.id) + " - " + Shown(sale.customerName) + note,
                               sale.total, "Estornos", Some(sale.id), env.ids(n), env.clock(1 + n));
      return Success(());
    }

    /** The stock loop of `cancelSale`: adds every line's quantity back to
        its product, ignoring failed updates, and logs one movement per
        line. */
    method RestockItems(items: seq<SaleItem>, saleId: string, env: Env)
      modifies this
      ensures products == RestockLines(old(products), items, |items|)
      ensures movements == old(movements) + LineMovements(items, |items|, Cancelamento, saleId, env, 0, 1)
      ensures sales == old(sales) && transactions == old(transactions)
    {
      var k := 0;
      while k < |items|
        invariant 0 <= k <= |items|
        invariant products == RestockLines(old(products), items, k)
        invariant movements == old(movements) + LineMovements(items, k, Cancelamento, saleId, env, 0, 1)
        invariant sales == old(sales) && transactions == old(transactions)
      {
        RestockLine(old(products), old(movements), items, k, saleId, env);
        k := k + 1;
      }
    }

    /** One pass of the stock loop of `cancelSale`: adds line k's quantity
        back to its product, ignoring a failed update, and logs the
        movement. */
    method RestockLine(ghost products0: seq<Product>, ghost movements0: seq<StockMovement>,
                       items: seq<SaleItem>, k: nat, saleId: string, env: Env)
      modifies this
      requires k < |items|
      requires products == RestockLines(products0, items, k)
      requires movements == movements0 + LineMovements(items, k, Cancelamento, saleId, env, 0, 1)
      ensures products == RestockLines(products0, items, k + 1)
      ensures movements == movements0 + LineMovements(items, k + 1, Cancelamento, saleId, env, 0, 1)
      ensures sales == old(sales) && transactions == old(transactions)
    {
      var item := items[k];
      var ignored := UpdateProductStock(item.productId, item.quantity);
      ghost var logged := LineMovements(items, k, Cancelamento, saleId, env, 0, 1);
      CreateStockMovement(item.productId, item.productName, item.quantity, Cancelamento, Some(saleId),
                          env.ids(k), env.clock(1 + k), env.user);
      AppendOne(movements0, logged, Movement(item.productId, item.productName, item.quantity, Cancelamento,
                                             Some(saleId), env.ids(k), env.clock(1 + k), env.user));
    }

    /** A sale that is created and then cancelled: the cancel succeeds, the
        sale stays where it was stored and is marked cancelled (so a further
        `cancelSale` of it is refused), the cash balance ends where it
        started, and so do the stocks when product ids are unique, stocks
        not negative and quantities positive. The sale needs an id no stored
        sale has, a passing validation and enough stock for all its lines
        together. */
    method CreateThenCancel(items: seq<SaleItem>, paymentMethod: string, customerName: string, discount: int,
                            observations: Option<string>, reason: Option<string>,
                            envSale: Env, envCancel: Env)
      returns (created: Result<Sale, SaleError>, cancelled: Result<(), SaleError>)
      modifies this
      requires ValidateSale(products, items, paymentMethod, SumBy(items, ItemSubtotal) - discount).None?
      requires SellLines(products, items, |items|).Some?
      requires forall k :: 0 <= k < |sales| ==> sales[k].id != envSale.ids(0)
      ensures created.Success? && cancelled == Success(())
      ensures sales == old(sales) + [Cancelled(created.value, envCancel.clock(0).iso, reason)]
      ensures SaleIndex(sales, created.value.id) == Some(|old(sales)|)
      ensures |transactions| == |old(transactions)| + 2
      ensures Balance(transactions) == Balance(old(transactions))
      ensures UniqueIds(old(products)) && StocksNonNegative(old(products)) && PositiveQuantities(items) ==>
                products == old(products)
    {
      created := CreateSale(items, paymentMethod, customerName, discount, observations, envSale);
      ghost var sale := NewSale(items, paymentMethod, customerName, discount, observations,
                                envSale.ids(0), envSale.clock(0), envSale.user);
      ghost var entry := SaleEntry(sale, envSale.ids(|items| + 1), envSale.clock(|items| + 1));
      assert created == Success(sale) && sales == old(sales) + [sale];
      assert transactions == old(transactions) + [entry];
      assert Some(products) == SellLines(old(products), items, |items|);
      cancelled := CancelLatest(created.value, reason, envCancel);
      BalanceInOut(old(transactions), entry, ReversalEntry(sale, reason, envCancel.ids(|items|), envCancel.clock(|items| + 1)));
      if UniqueIds(old(products)) && StocksNonNegative(old(products)) && PositiveQuantities(items) {
        SellThenRestock(old(products), items);
      }
    }

    /** `cancelSale` of a confirmed sale stored last, whose id no earlier
        sale has: it succeeds, and the sale is found where it is stored. */
    method CancelLatest(sale: Sale, reason: Option<string>, env: Env) returns (cancelled: Result<(), SaleError>)
      modifies this
      requires |sales| > 0 && sales[|sales| - 1] == sale && sale.status == Confirmada
      requires forall k :: 0 <= k < |sales| - 1 ==> sales[k].id != sale.id
      ensures cancelled == Success(())
      ensures sales == old(sales)[..|old(sales)| - 1] + [Cancelled(sale, env.clock(0).iso, reason)]
      ensures SaleIndex(sales, sale.id) == Some(|old(sales)| - 1)
      ensures products == RestockLines(old(products), sale.items, |sale.items|)
      ensures movements == old(movements) + LineMovements(sale.items, |sale.items|, Cancelamento, sale.id, env, 0, 1)
      ensures transactions == old(transactions)
                              + [ReversalEntry(sale, reason, env.ids(|sale.items|), env.clock(|sale.items| + 1))]
    {
      var i := |sales| - 1;
      FoundAfter(sales, i, sale.id);
      cancelled := CancelSale(sale.id, reason, env);
      UpdateLast(old(sales), Cancelled(sale, env.clock(0).iso, reason));
      FoundAfter(sales, i, sale.id);
    }

    /** Two `cancelSale` calls for the same id: a sale the first call
        cancels is refused by the second, which then changes nothing, so the
        pair adds the movements and the one reversal of a single cancel; if
        the first call fails, both fail and nothing changes. */
    method CancelTwice(saleId: string, reason: Option<string>, env1: Env, env2: Env)
      returns (first: Result<(), SaleError>, second: Result<(), SaleError>)
      modifies this
      ensures first.Failure? ==> second == first
                                 && UnchangedSince(old(products), old(sales), old(transactions), old(movements))
      ensures SaleIndex(old(sales), saleId).Some? && old(sales)[SaleIndex(old(sales), saleId).value].status == Confirmada ==>
                var i := SaleIndex(old(sales), saleId).value;
                var sale := old(sales)[i];
                var n := |sale.items|;
                && first == Success(())
                && second == Failure(AlreadyCancelled)
                && sales == old(sales)[i := Cancelled(sale, env1.clock(0).iso, reason)]
                && products == RestockLines(old(products), sale.items, n)
                && movements == old(movements) + LineMovements(sale.items, n, Cancelamento, sale.id, env1, 0, 1)
                && transactions == old(transactions) + [ReversalEntry(sale, reason, env1.ids(n), env1.clock(n + 1))]
    {
      first := CancelSale(saleId, reason, env1);
      var index := SaleIndex(old(sales), saleId);
      if index.Some? && old(sales)[index.value].status == Confirmada {
        FoundAfter(sales, index.value, saleId);
      }
      second := CancelSale(saleId, reason, env2);
    }

    // ==================== reads ====================

    /** `getSales`: exactly the stored sales that satisfy every supplied
        filter, as many times as they are stored, newest `createdAt`
        first. */
    function GetSales(f: SaleFilters): (r: seq<Sale>)
      reads this
      ensures multiset(r) == multiset(Filter(sales, Matcher(f)))
      ensures forall i :: 0 <= i < |r| ==> r[i] in sales && MatchesFilters(r[i], f)
      ensures forall i :: 0 <= i < |sales| && MatchesFilters(sales[i], f) ==> sales[i] in r
      ensures SortedDesc(r, SaleCreatedAt)
    {
      FilterSalesMatches(sales, f);
      SortDescSorted(FilterSales(sales, f), SaleCreatedAt);
      var r := SortDesc(FilterSales(sales, f), SaleCreatedAt);
      SameElements(r, Filter(sales, Matcher(f)));
      r
    }

    /** `getSaleById`: the first stored sale with the id, or None. */
    function GetSaleById(id: string): (r: Option<Sale>)
      reads this
      ensures r.None? <==> forall k :: 0 <= k < |sales| ==> sales[k].id != id
      ensures r.Some? ==> exists k :: 0 <= k < |sales| && sales[k] == r.value && r.value.id == id
                                      && forall j :: 0 <= j < k ==> sales[j].id != id
    {
      match SaleIndex(sales, id)
      case None => None
      case Some(i) => Some(sales[i])
    }

    /** `getStockMovements`: the movements of the product (all of them when
        no id is given), newest `createdAt` first. */
    function GetStockMovements(productId: string): (r: seq<StockMovement>)
      reads this
      ensures multiset(r) == multiset(if productId == "" then movements else Filter(movements, ProductStage(productId)))
      ensures forall i :: 0 <= i < |r| ==> r[i] in movements && (productId == "" || r[i].productId == productId)
      ensures SortedDesc(r, MovementCreatedAt)
    {
      SortDescSorted(FilterMovements(movements, productId), MovementCreatedAt);
      var r := SortDesc(FilterMovements(movements, productId), MovementCreatedAt);
      SameElements(r, FilterMovements(movements, productId));
      r
    }

    /** `getSalesReport`: the folds over the confirmed sales dated within
        the bounds. The totals are those of the matching stored sales,
        whatever their order; the payment-method revenues and the per-user
        revenues add up to the total revenue, the per-user counts to the
        number of sales, and each product's entry to what its lines sold. */
    function GetSalesReport(startDate: string, endDate: string): (r: SalesReport)
      reads this
      ensures r == Report(GetSales(ConfirmedIn(startDate, endDate)))
      ensures var chosen := Filter(sales, Matcher(ConfirmedIn(startDate, endDate)));
              && r.totalSales == |chosen|
              && r.totalRevenue == SumBy(chosen, SaleTotal)
              && r.totalDiscount == SumBy(chosen, SaleDiscount)
      ensures MapSumBy(r.byPaymentMethod, Amount) == r.totalRevenue
      ensures MapSumBy(r.byUser, UserSalesCount) == r.totalSales
      ensures MapSumBy(r.byUser, UserRevenue) == r.totalRevenue
      ensures forall id :: id in r.byProduct ==>
                && r.byProduct[id].quantity == SoldQuantity(GetSales(ConfirmedIn(startDate, endDate)), id)
                && r.byProduct[id].revenue == SoldRevenue(GetSales(ConfirmedIn(startDate, endDate)), id)
    {
      var chosen := GetSales(ConfirmedIn(startDate, endDate));
      SumByPermutation(chosen, Filter(sales, Matcher(ConfirmedIn(startDate, endDate))), SaleTotal);
      SumByPermutation(chosen, Filter(sales, Matcher(ConfirmedIn(startDate, endDate))), SaleDiscount);
      assert |chosen| == |multiset(chosen)|;
      Report(chosen)
    }

    /** `getCashierBalance`: the cash-in values minus the cash-out values. */
    function GetCashierBalance(): (b: int)
      reads this
      ensures b == SumBy(transactions, Inflow) - SumBy(transactions, Outflow)
    {
      Balance(transactions)
    }

    ghost predicate UnchangedSince(products0: seq<Product>, sales0: seq<Sale>,
                                   transactions0: seq<CashierTransaction>, movements0: seq<StockMovement>)
      reads this
    {
      products == products0 && sales == sales0 && transactions == transactions0 && movements == movements0
    }
  }

  /** When the first i entries lack the id and entry i has it, the lookup
      finds position i. */
  lemma FoundAfter(sales: seq<Sale>, i: nat, id: string)
    requires i < |sales| && sales[i].id == id
    requires forall k :: 0 <= k < i ==> sales[k].id != id
    ensures SaleIndex(sales, id) == Some(i)
  {
  }
}
