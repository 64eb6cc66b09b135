/** The specification of the sales service's writes (src/lib/salesService.ts):
    what `updateProductStock` does to the product list, the records
    `createStockMovement` and `createCashierTransaction` append, the checks
    of `validateSale`, the sale `createSale` builds and the change
    `cancelSale` makes to it. The methods of SalesService.Store are proved
    against these functions. */
module SalesLedger {
  import opened Wrappers
  import opened Folds
  import opened SalesTypes

  // ==================== products and stock ====================

  /** Position i holds the first product with this id. */
  predicate FirstWithId(ps: seq<Product>, i: int, id: string)
  {
    0 <= i < |ps| && ps[i].id == id && forall k :: 0 <= k < i ==> ps[k].id != id
  }

  predicate HasId(ps: seq<Product>, id: string)
  {
    exists k :: 0 <= k < |ps| && ps[k].id == id
  }

  /** `products.findIndex(p => p.id === productId)`. */
  function ProductIndex(ps: seq<Product>, id: string): Option<nat>
  {
    FindIndex(ps, (p: Product) => p.id == id)
  }

  /** The lookup finds the first product with the id, and finds none
      exactly when no product has it. */
  lemma ProductIndexSpec(ps: seq<Product>, id: string)
    ensures ProductIndex(ps, id).Some? ==> FirstWithId(ps, ProductIndex(ps, id).value, id)
    ensures ProductIndex(ps, id).None? <==> !HasId(ps, id)
  {
  }

  predicate StocksNonNegative(ps: seq<Product>)
  {
    forall k :: 0 <= k < |ps| ==> ps[k].stock >= 0
  }

  predicate UniqueIds(ps: seq<Product>)
  {
    forall i, j :: 0 <= i < j < |ps| ==> ps[i].id != ps[j].id
  }

  /** ps and qs list the same products in the same order, stocks aside. */
  predicate SameIds(ps: seq<Product>, qs: seq<Product>)
  {
    |ps| == |qs| && forall k :: 0 <= k < |ps| ==> ps[k].id == qs[k].id
  }

  /** The product list after `updateProductStock(id, change)`, or None when
      it returns false: the id is unknown, or the stock would go below zero.
      An update keeps the products, their order and their ids, and keeps
      stocks non-negative. */
  function AdjustStock(ps: seq<Product>, id: string, change: int): (r: Option<seq<Product>>)
    ensures r.Some? ==> HasId(ps, id) && |r.value| == |ps|
    ensures !HasId(ps, id) ==> r.None?
  {
    ProductIndexSpec(ps, id);
    match ProductIndex(ps, id)
    case None => None
    case Some(i) =>
      var p := ps[i];
      if p.stock + change < 0 then None else Some(ps[i := p.(stock := p.stock + change)])
  }

  /** A stock update fails exactly when the id is unknown or the first
      product with it would go below zero; otherwise that product's stock,
      and nothing else, changes by the amount. */
  lemma AdjustStockSpec(ps: seq<Product>, id: string, change: int)
    ensures var r := AdjustStock(ps, id, change);
            r.None? <==> !HasId(ps, id) || exists i :: FirstWithId(ps, i, id) && ps[i].stock + change < 0
    ensures var r := AdjustStock(ps, id, change);
            r.Some? ==> exists i :: FirstWithId(ps, i, id) && ps[i].stock + change >= 0
                                    && r.value == ps[i := ps[i].(stock := ps[i].stock + change)]
    ensures var r := AdjustStock(ps, id, change);
            r.Some? ==> SameIds(ps, r.value)
    ensures var r := AdjustStock(ps, id, change);
            r.Some? && StocksNonNegative(ps) ==> StocksNonNegative(r.value)
  {
    ProductIndexSpec(ps, id);
  }

  /** The product list after the stock loop of `createSale` has decremented
      the first n lines in order, or None if one of those decrements
      fails. */
  function SellLines(ps: seq<Product>, items: seq<SaleItem>, n: nat): Option<seq<Product>>
    requires n <= |items|
  {
    if n == 0 then Some(ps)
    else
      match SellLines(ps, items, n - 1)
      case None => None
      case Some(mid) => AdjustStock(mid, items[n - 1].productId, -items[n - 1].quantity)
  }

  /** A successful sale loop keeps the ids in place and no stock below
      zero. */
  lemma {:induction false} SellLinesKeeps(ps: seq<Product>, items: seq<SaleItem>, n: nat)
    requires n <= |items| && SellLines(ps, items, n).Some?
    ensures SameIds(ps, SellLines(ps, items, n).value)
    ensures StocksNonNegative(ps) ==> StocksNonNegative(SellLines(ps, items, n).value)
  {
    if n > 0 {
      SellLinesKeeps(ps, items, n - 1);
      AdjustStockSpec(SellLines(ps, items, n - 1).value, items[n - 1].productId, -items[n - 1].quantity);
    }
  }

  /** Once the first k lines fail to sell, so do the first n for any n
      from k on. */
  lemma {:induction false} SellLinesPrefix(ps: seq<Product>, items: seq<SaleItem>, k: nat, n: nat)
    requires k <= n <= |items| && SellLines(ps, items, n).Some?
    ensures SellLines(ps, items, k).Some?
  {
    if k < n {
      SellLinesPrefix(ps, items, k, n - 1);
    }
  }

  /** Once a decrement has failed, the whole loop fails. */
  lemma SellLinesStop(ps: seq<Product>, items: seq<SaleItem>, k: nat)
    requires k <= |items| && SellLines(ps, items, k).None?
    ensures SellLines(ps, items, |items|).None?
  {
    if SellLines(ps, items, |items|).Some? {
      SellLinesPrefix(ps, items, k, |items|);
    }
  }

  /** The product list after the stock loop of `cancelSale` has added back
      the first n lines in order; a line whose update fails leaves the list
      as it was, since the loop ignores the result. */
  function RestockLines(ps: seq<Product>, items: seq<SaleItem>, n: nat): seq<Product>
    requires n <= |items|
  {
    if n == 0 then ps
    else
      var mid := RestockLines(ps, items, n - 1);
      AdjustStock(mid, items[n - 1].productId, items[n - 1].quantity).GetOr(mid)
  }

  /** The cancel loop keeps the ids in place, and no stock below zero. */
  lemma {:induction false} RestockLinesKeeps(ps: seq<Product>, items: seq<SaleItem>, n: nat)
    requires n <= |items|
    ensures SameIds(ps, RestockLines(ps, items, n))
    ensures StocksNonNegative(ps) ==> StocksNonNegative(RestockLines(ps, items, n))
  {
    if n > 0 {
      RestockLinesKeeps(ps, items, n - 1);
      AdjustStockSpec(RestockLines(ps, items, n - 1), items[n - 1].productId, items[n - 1].quantity);
    }
  }

  /** Total quantity the lines ask of one product. */
  function QuantityFor(items: seq<SaleItem>, id: string): int
  {
    if |items| == 0 then 0
    else
      var last := items[|items| - 1];
      QuantityFor(items[..|items| - 1], id) + (if last.productId == id then last.quantity else 0)
  }

  predicate PositiveQuantities(items: seq<SaleItem>)
  {
    forall k :: 0 <= k < |items| ==> items[k].quantity > 0
  }

  lemma {:induction false} QuantityForNonNegative(items: seq<SaleItem>, id: string)
    requires PositiveQuantities(items)
    ensures QuantityFor(items, id) >= 0
  {
    if |items| > 0 {
      QuantityForNonNegative(items[..|items| - 1], id);
    }
  }

  /** With unique ids, a successful stock update changes exactly the
      product with that id, by the given amount. */
  lemma AdjustStockUnique(ps: seq<Product>, id: string, change: int)
    requires UniqueIds(ps) && AdjustStock(ps, id, change).Some?
    ensures |AdjustStock(ps, id, change).value| == |ps|
    ensures forall j :: 0 <= j < |ps| ==>
              AdjustStock(ps, id, change).value[j]
              == (if ps[j].id == id then ps[j].(stock := ps[j].stock + change) else ps[j])
  {
    AdjustStockSpec(ps, id, change);
    ProductIndexSpec(ps, id);
    var i := ProductIndex(ps, id).value;
    assert forall j :: 0 <= j < |ps| && ps[j].id == id ==> j == i;
  }

  /** Adding a non-negative amount to a non-negative stock only fails when
      the product is missing. */
  lemma AdjustStockUp(ps: seq<Product>, id: string, change: int)
    requires StocksNonNegative(ps) && change >= 0
    ensures AdjustStock(ps, id, change).Some? <==> HasId(ps, id)
  {
    AdjustStockSpec(ps, id, change);
  }

  /** The quantity the first n + 1 lines ask of a product is that of the
      first n plus line n's. */
  lemma QuantityForSnoc(items: seq<SaleItem>, n: nat, id: string)
    requires n < |items|
    ensures QuantityFor(items[..n + 1], id)
            == QuantityFor(items[..n], id) + (if items[n].productId == id then items[n].quantity else 0)
  {
    assert items[..n + 1][..n] == items[..n];
  }

  /** A successful run of the sale loop over the first n lines takes from
      each product exactly the quantity those lines ask for. */
  lemma {:induction false} SellLinesEffect(ps: seq<Product>, items: seq<SaleItem>, n: nat)
    requires UniqueIds(ps)
    requires n <= |items| && SellLines(ps, items, n).Some?
    ensures Taken(ps, items, n, SellLines(ps, items, n).value)
  {
    if n > 0 {
      SellLinesLast(ps, items, n);
      SellLinesEffect(ps, items, n - 1);
      SellStep(ps, items, n, SellLines(ps, items, n - 1).value, SellLines(ps, items, n).value);
    }
  }

  /** The last step of a successful SellLines: the first n - 1 lines
      succeeded and line n - 1 was sold on top of them. */
  lemma SellLinesLast(ps: seq<Product>, items: seq<SaleItem>, n: nat)
    requires 0 < n <= |items| && SellLines(ps, items, n).Some?
    ensures SellLines(ps, items, n - 1).Some?
    ensures SellLines(ps, items, n)
            == AdjustStock(SellLines(ps, items, n - 1).value, items[n - 1].productId, -items[n - 1].quantity)
  {
  }

  /** qs is ps with each product's stock lowered by the quantity the first
      n lines ask of it. */
  ghost predicate Taken(ps: seq<Product>, items: seq<SaleItem>, n: nat, qs: seq<Product>)
    requires n <= |items|
  {
    |qs| == |ps|
    && forall j :: 0 <= j < |ps| ==> qs[j] == ps[j].(stock := ps[j].stock - QuantityFor(items[..n], ps[j].id))
  }

  /** One step of SellLinesEffect: selling line n - 1 on top of the first
      n - 1 lines. */
  lemma SellStep(ps: seq<Product>, items: seq<SaleItem>, n: nat, mid: seq<Product>, next: seq<Product>)
    requires UniqueIds(ps)
    requires 0 < n <= |items| && Taken(ps, items, n - 1, mid)
    requires AdjustStock(mid, items[n - 1].productId, -items[n - 1].quantity) == Some(next)
    ensures Taken(ps, items, n, next)
  {
    var last := items[n - 1];
    assert UniqueIds(mid) by {
      forall a, b | 0 <= a < b < |mid| ensures mid[a].id != mid[b].id {
        assert mid[a].id == ps[a].id && mid[b].id == ps[b].id;
      }
    }
    forall j | 0 <= j < |ps| {
      QuantityForSnoc(items, n - 1, ps[j].id);
    }
    AdjustStockUnique(mid, last.productId, -last.quantity);
  }

  /** The cancel loop over the first n lines gives each product back
      exactly the quantity those lines name, provided stocks and quantities
      are not negative. */
  lemma {:induction false} RestockLinesEffect(ps: seq<Product>, items: seq<SaleItem>, n: nat)
    requires UniqueIds(ps) && StocksNonNegative(ps) && PositiveQuantities(items)
    requires n <= |items|
    ensures |RestockLines(ps, items, n)| == |ps|
    ensures forall j :: 0 <= j < |ps| ==>
              RestockLines(ps, items, n)[j] == ps[j].(stock := ps[j].stock + QuantityFor(items[..n], ps[j].id))
  {
    if n > 0 {
      RestockLinesEffect(ps, items, n - 1);
      RestockStep(ps, items, n, RestockLines(ps, items, n - 1));
    }
  }

  /** One step of RestockLinesEffect: giving back line n - 1 on top of the
      first n - 1 lines. */
  lemma RestockStep(ps: seq<Product>, items: seq<SaleItem>, n: nat, mid: seq<Product>)
    requires UniqueIds(ps) && StocksNonNegative(ps) && PositiveQuantities(items)
    requires 0 < n <= |items| && |mid| == |ps|
    requires forall j :: 0 <= j < |ps| ==>
               mid[j] == ps[j].(stock := ps[j].stock + QuantityFor(items[..n - 1], ps[j].id))
    ensures var next := AdjustStock(mid, items[n - 1].productId, items[n - 1].quantity).GetOr(mid);
            |next| == |ps|
            && forall j :: 0 <= j < |ps| ==>
                 next[j] == ps[j].(stock := ps[j].stock + QuantityFor(items[..n], ps[j].id))
  {
    var last := items[n - 1];
    assert UniqueIds(mid) by {
      forall a, b | 0 <= a < b < |mid| ensures mid[a].id != mid[b].id {
        assert mid[a].id == ps[a].id && mid[b].id == ps[b].id;
      }
    }
    assert StocksNonNegative(mid) by {
      forall j | 0 <= j < |ps| ensures mid[j].stock >= 0 {
        QuantityForNonNegative(items[..n - 1], ps[j].id);
      }
    }
    forall j | 0 <= j < |ps| {
      QuantityForSnoc(items, n - 1, ps[j].id);
    }
    AdjustStockUp(mid, last.productId, last.quantity);
    if AdjustStock(mid, last.productId, last.quantity).Some? {
      AdjustStockUnique(mid, last.productId, last.quantity);
    } else {
      assert forall j :: 0 <= j < |ps| ==> mid[j].id != last.productId;
    }
  }

  /** Selling the lines of a sale and then giving them back leaves the
      product list exactly as it was. */
  lemma SellThenRestock(ps: seq<Product>, items: seq<SaleItem>)
    requires UniqueIds(ps) && StocksNonNegative(ps) && PositiveQuantities(items)
    requires SellLines(ps, items, |items|).Some?
    ensures RestockLines(SellLines(ps, items, |items|).value, items, |items|) == ps
  {
    var sold := SellLines(ps, items, |items|).value;
    SellLinesEffect(ps, items, |items|);
    SellLinesKeeps(ps, items, |items|);
    assert UniqueIds(sold) by {
      assert SameIds(ps, sold);
    }
    RestockLinesEffect(sold, items, |items|);
    var back := RestockLines(sold, items, |items|);
    assert SameIds(ps, sold);
  }

  // ==================== stock movements ====================

  /** The record `createStockMovement` appends. */
  function Movement(productId: string, productName: string, quantity: int, kind: MovementKind,
                    saleId: Option<string>, id: string, at: Stamp, user: User): StockMovement
  {
    StockMovement(id, productId, productName, quantity, kind, saleId, at.date, at.time, user.id, at.iso)
  }

  /** The signed quantity a line moves: out for a sale, back in for a
      cancellation. */
  function LineDelta(kind: MovementKind, item: SaleItem): int
  {
    if kind == Venda then -item.quantity else item.quantity
  }

  /** The movements a stock loop logs for its first n lines, one per line
      in order; line k uses the generated id number idBase + k and clock
      reading clockBase + k. */
  function LineMovements(items: seq<SaleItem>, n: nat, kind: MovementKind, saleId: string, env: Env,
                         idBase: nat, clockBase: nat): (r: seq<StockMovement>)
    requires n <= |items|
    ensures |r| == n
  {
    if n == 0 then []
    else
      var item := items[n - 1];
      LineMovements(items, n - 1, kind, saleId, env, idBase, clockBase)
        + [Movement(item.productId, item.productName, LineDelta(kind, item), kind, Some(saleId),
                    env.ids(idBase + n - 1), env.clock(clockBase + n - 1), env.user)]
  }

  /** One movement per line, in line order, each with the line's product,
      the signed quantity, the kind and the sale id. */
  lemma {:induction false} LineMovementsAt(items: seq<SaleItem>, n: nat, kind: MovementKind, saleId: string,
                                           env: Env, idBase: nat, clockBase: nat, k: nat)
    requires k < n <= |items|
    ensures var m := LineMovements(items, n, kind, saleId, env, idBase, clockBase)[k];
            m.productId == items[k].productId && m.productName == items[k].productName
            && m.quantity == LineDelta(kind, items[k]) && m.kind == kind && m.saleId == Some(saleId)
  {
    if k < n - 1 {
      LineMovementsAt(items, n - 1, kind, saleId, env, idBase, clockBase, k);
    }
  }

  /** Net quantity a list of movements records for one product. */
  function MovedQuantity(ms: seq<StockMovement>, id: string): int
  {
    if |ms| == 0 then 0
    else
      var last := ms[|ms| - 1];
      MovedQuantity(ms[..|ms| - 1], id) + (if last.productId == id then last.quantity else 0)
  }

  /** The movements a stock loop logs for its first n lines account,
      product by product, for the change in stock: minus the quantity sold,
      plus the quantity returned. */
  lemma {:induction false} LineMovementsAccount(items: seq<SaleItem>, n: nat, kind: MovementKind, saleId: string,
                                                env: Env, idBase: nat, clockBase: nat, id: string)
    requires n <= |items|
    ensures MovedQuantity(LineMovements(items, n, kind, saleId, env, idBase, clockBase), id)
            == (if kind == Venda then -QuantityFor(items[..n], id) else QuantityFor(items[..n], id))
  {
    if n > 0 {
      LineMovementsAccount(items, n - 1, kind, saleId, env, idBase, clockBase, id);
      var ms := LineMovements(items, n, kind, saleId, env, idBase, clockBase);
      var init := LineMovements(items, n - 1, kind, saleId, env, idBase, clockBase);
      assert ms[..|ms| - 1] == init;
      var last := ms[|ms| - 1];
      assert last.productId == items[n - 1].productId && last.quantity == LineDelta(kind, items[n - 1]);
      assert MovedQuantity(ms, id) == MovedQuantity(init, id) + (if last.productId == id then last.quantity else 0);
      QuantityForSnoc(items, n - 1, id);
    }
  }

  // ==================== cashier ====================

  /** The record `createCashierTransaction` appends. */
  function Transaction(kind: CashierKind, description: string, value: int, category: string,
                       saleId: Option<string>, id: string, at: Stamp): CashierTransaction
  {
    CashierTransaction(id, kind, description, value, category, at.date, at.time, saleId, at.iso)
  }

  function SignedValue(t: CashierTransaction): int
  {
    if t.kind == Entrada then t.value else -t.value
  }

  /** `getCashierBalance`: the sum of the cash-in values minus the sum of
      the cash-out values. */
  function Balance(txs: seq<CashierTransaction>): (b: int)
    ensures b == SumBy(txs, Inflow) - SumBy(txs, Outflow)
  {
    SignedSplit(txs);
    SumBy(txs, SignedValue)
  }

  /** The balance moves by the signed value of each appended transaction. */
  lemma BalanceAppend(txs: seq<CashierTransaction>, more: seq<CashierTransaction>)
    ensures Balance(txs + more) == Balance(txs) + Balance(more)
  {
    SumByAppend(txs, more, SignedValue);
  }

  function Inflow(t: CashierTransaction): int
  {
    if t.kind == Entrada then t.value else 0
  }

  function Outflow(t: CashierTransaction): int
  {
    if t.kind == Saida then t.value else 0
  }

  /** Summing the signed values is summing the cash-in values and
      subtracting the cash-out values. */
  lemma {:induction false} SignedSplit(txs: seq<CashierTransaction>)
    ensures SumBy(txs, SignedValue) == SumBy(txs, Inflow) - SumBy(txs, Outflow)
  {
    if |txs| > 0 {
      SignedSplit(txs[..|txs| - 1]);
    }
  }

  /** A cash-in followed by a cash-out of the same value leaves the balance
      where it was. */
  lemma BalanceInOut(txs: seq<CashierTransaction>, entry: CashierTransaction, reversal: CashierTransaction)
    requires entry.kind == Entrada && reversal.kind == Saida && entry.value == reversal.value
    ensures Balance(txs + [entry] + [reversal]) == Balance(txs)
  {
    BalanceAppend(txs + [entry], [reversal]);
    BalanceAppend(txs, [entry]);
    SumBySingle(entry, SignedValue);
    SumBySingle(reversal, SignedValue);
  }

  /** `sale.id.slice(-8)`. */
  function Last8(id: string): (r: string)
    ensures |r| == if |id| <= 8 then |id| else 8
    ensures id == id[..|id| - |r|] + r
  {
    if |id| <= 8 then id else id[|id| - 8..]
  }

  /** How a template literal shows an optional string. */
  function Shown(o: Option<string>): string
  {
    match o
    case Some(s) => s
    case None => "undefined"
  }

  /** The cash-in `createSale` posts for a sale. */
  function SaleEntry(sale: Sale, id: string, at: Stamp): (t: CashierTransaction)
    ensures t.kind == Entrada && t.value == sale.total && t.category == "Vendas" && t.saleId == Some(sale.id)
  {
    Transaction(Entrada, "Venda #" + Last8(sale.id) + " - " + Shown(sale.customerName),
                sale.total, "Vendas", Some(sale.id), id, at)
  }

  /** The cash-out `cancelSale` posts to reverse a sale. */
  function ReversalEntry(sale: Sale, reason: Option<string>, id: string, at: Stamp): (t: CashierTransaction)
    ensures t.kind == Saida && t.value == sale.total && t.category == "Estornos" && t.saleId == Some(sale.id)
  {
    var note := if reason.Some? && reason.value != "" then " (" + reason.value + ")" else "";
    Transaction(Saida, "Cancelamento Venda #" + Last8(sale.id) + " - " + Shown(sale.customerName) + note,
                sale.total, "Estornos", Some(sale.id), id, at)
  }

  // ==================== validation ====================

  function ItemSubtotal(item: SaleItem): int { item.subtotal }

  /** The stock check `validateSale` makes for one line. */
  function ItemCheck(ps: seq<Product>, item: SaleItem): Option<SaleError>
  {
    match ProductIndex(ps, item.productId)
    case None => Some(ProductNotFound(item.productName))
    case Some(i) =>
      if ps[i].stock < item.quantity then Some(InsufficientStock(item.productName, ps[i].stock)) else None
  }

  /** A line passes exactly when the first product with its id has at least
      the quantity in stock; a missing product and a short stock each give
      their own error, the latter naming the stock there is. */
  lemma ItemCheckSpec(ps: seq<Product>, item: SaleItem)
    ensures var r := ItemCheck(ps, item);
            r.None? <==> exists i :: FirstWithId(ps, i, item.productId) && ps[i].stock >= item.quantity
    ensures var r := ItemCheck(ps, item);
            r.Some? && !HasId(ps, item.productId) ==> r.value == ProductNotFound(item.productName)
    ensures var r := ItemCheck(ps, item);
            r.Some? && HasId(ps, item.productId) ==>
              exists i :: FirstWithId(ps, i, item.productId)
                          && r.value == InsufficientStock(item.productName, ps[i].stock)
  {
    ProductIndexSpec(ps, item.productId);
  }

  /** The per-line loop of `validateSale`: the first failing line's error. */
  function ValidateItems(ps: seq<Product>, items: seq<SaleItem>): Option<SaleError>
  {
    if |items| == 0 then None
    else match ItemCheck(ps, items[0])
         case Some(e) => Some(e)
         case None => ValidateItems(ps, items[1..])
  }

  /** The line checks pass exactly when every line passes; otherwise the
      error is that of the first line that fails. */
  lemma {:induction false} ValidateItemsSpec(ps: seq<Product>, items: seq<SaleItem>)
    ensures ValidateItems(ps, items).None? <==> forall k :: 0 <= k < |items| ==> ItemCheck(ps, items[k]).None?
    ensures ValidateItems(ps, items).Some? ==>
              exists k :: 0 <= k < |items| && ValidateItems(ps, items) == ItemCheck(ps, items[k])
                          && forall j :: 0 <= j < k ==> ItemCheck(ps, items[j]).None?
  {
    if |items| > 0 && ItemCheck(ps, items[0]).None? {
      var rest := items[1..];
      ValidateItemsSpec(ps, rest);
      assert forall k :: 1 <= k < |items| ==> items[k] == rest[k - 1];
      if ValidateItems(ps, rest).Some? {
        var k :| 0 <= k < |rest| && ValidateItems(ps, rest) == ItemCheck(ps, rest[k])
                 && forall j :: 0 <= j < k ==> ItemCheck(ps, rest[j]).None?;
        assert ValidateItems(ps, items) == ItemCheck(ps, items[k + 1]);
        assert forall j :: 0 <= j < k + 1 ==> ItemCheck(ps, items[j]).None?;
      }
    }
  }

  /** `validateSale`: None stands for `{ valid: true }`. A sale is valid
      exactly when it has lines, a positive total, a payment method and
      every line passes its stock check; otherwise the error is that of the
      first rule it breaks, in the order lines, total, payment method,
      stock. */
  function ValidateSale(ps: seq<Product>, items: seq<SaleItem>, paymentMethod: string, total: int): (r: Option<SaleError>)
    ensures r.None? <==> |items| > 0 && total > 0 && paymentMethod != ""
                         && forall k :: 0 <= k < |items| ==> ItemCheck(ps, items[k]).None?
    ensures |items| == 0 ==> r == Some(EmptySale)
    ensures |items| > 0 && total <= 0 ==> r == Some(NonPositiveTotal)
    ensures |items| > 0 && total > 0 && paymentMethod == "" ==> r == Some(MissingPaymentMethod)
    ensures |items| > 0 && total > 0 && paymentMethod != "" ==> r == ValidateItems(ps, items)
  {
    ValidateItemsSpec(ps, items);
    if |items| == 0 then Some(EmptySale)
    else if total <= 0 then Some(NonPositiveTotal)
    else if paymentMethod == "" then Some(MissingPaymentMethod)
    else ValidateItems(ps, items)
  }

  // ==================== sales ====================

  const DefaultCustomer: string := "Cliente não identificado"

  /** The sale record `createSale` builds. */
  function NewSale(items: seq<SaleItem>, paymentMethod: string, customerName: string, discount: int,
                   observations: Option<string>, id: string, at: Stamp, user: User): (s: Sale)
    ensures s.id == id && s.items == items && s.status == Confirmada
    ensures s.subtotal == SumBy(items, ItemSubtotal) && s.discount == discount
    ensures s.total == s.subtotal - s.discount
    ensures s.customerName == Some(if customerName == "" then DefaultCustomer else customerName)
    ensures s.cancelledAt == None && s.cancelReason == None
  {
    var subtotal := SumBy(items, ItemSubtotal);
    Sale(id, at.date, at.time, user.id, user.name, None,
         Some(if customerName == "" then DefaultCustomer else customerName),
         paymentMethod, Confirmada, items, subtotal, discount, subtotal - discount,
         observations, at.iso, None, None)
  }

  /** `sales.findIndex(s => s.id === saleId)`. */
  function SaleIndex(sales: seq<Sale>, id: string): (r: Option<nat>)
    ensures r.Some? ==> r.value < |sales| && sales[r.value].id == id
                        && forall k :: 0 <= k < r.value ==> sales[k].id != id
    ensures r.None? ==> forall k :: 0 <= k < |sales| ==> sales[k].id != id
  {
    FindIndex(sales, (s: Sale) => s.id == id)
  }

  /** `sales.filter(s => s.id !== id)`, the rollback of `createSale`. */
  function WithoutId(sales: seq<Sale>, id: string): seq<Sale>
  {
    if |sales| == 0 then []
    else
      var rest := WithoutId(sales[..|sales| - 1], id);
      var last := sales[|sales| - 1];
      if last.id != id then rest + [last] else rest
  }

  /** The rollback keeps exactly the sales with another id. */
  lemma {:induction false} WithoutIdSpec(sales: seq<Sale>, id: string)
    ensures forall s :: s in WithoutId(sales, id) <==> s in sales && s.id != id
  {
    if |sales| > 0 {
      WithoutIdSpec(sales[..|sales| - 1], id);
      assert sales == sales[..|sales| - 1] + [sales[|sales| - 1]];
    }
  }

  /** Filtering out a freshly appended sale restores the list before it,
      as long as no earlier sale had its id. */
  lemma RollbackRestores(sales: seq<Sale>, sale: Sale)
    requires forall k :: 0 <= k < |sales| ==> sales[k].id != sale.id
    ensures WithoutId(sales + [sale], sale.id) == sales
  {
    assert (sales + [sale])[..|sales|] == sales;
    WithoutIdKeepsAll(sales, sale.id);
  }

  lemma {:induction false} WithoutIdKeepsAll(sales: seq<Sale>, id: string)
    requires forall k :: 0 <= k < |sales| ==> sales[k].id != id
    ensures WithoutId(sales, id) == sales
  {
    if |sales| > 0 {
      WithoutIdKeepsAll(sales[..|sales| - 1], id);
      assert sales == sales[..|sales| - 1] + [sales[|sales| - 1]];
    }
  }

  /** The record `cancelSale` writes back: status, cancellation time and
      reason change; items and money do not. */
  function Cancelled(sale: Sale, at: string, reason: Option<string>): (s: Sale)
    ensures s.status == Cancelada && s.cancelledAt == Some(at) && s.cancelReason == reason
    ensures s.id == sale.id && s.items == sale.items && s.total == sale.total
            && s.subtotal == sale.subtotal && s.discount == sale.discount
            && s.paymentMethod == sale.paymentMethod && s.createdAt == sale.createdAt
            && s.customerName == sale.customerName && s.userId == sale.userId
  {
    sale.(status := Cancelada, cancelledAt := Some(at), cancelReason := reason)
  }

  /** Validation checks each line against the stock on its own, so two
      lines for one product that each fit its stock but together exceed it
      pass, and the stock loop of `createSale` then makes the first
      decrement and fails on the second: the path on which the sale is
      rolled back while the first decrement stays. */
  lemma DuplicateLinesReachRollback(ps: seq<Product>, i: nat, item: SaleItem)
    requires FirstWithId(ps, i, item.productId)
    requires 0 < item.quantity <= ps[i].stock < 2 * item.quantity
    ensures ValidateItems(ps, [item, item]).None?
    ensures SellLines(ps, [item, item], 1) == Some(ps[i := ps[i].(stock := ps[i].stock - item.quantity)])
    ensures SellLines(ps, [item, item], 2).None?
  {
    var items := [item, item];
    ProductIndexSpec(ps, item.productId);
    assert ProductIndex(ps, item.productId) == Some(i);
    ValidateItemsSpec(ps, items);
    var mid := ps[i := ps[i].(stock := ps[i].stock - item.quantity)];
    assert SellLines(ps, items, 1) == AdjustStock(ps, item.productId, -item.quantity);
    assert FirstWithId(mid, i, item.productId);
    ProductIndexSpec(mid, item.productId);
    assert ProductIndex(mid, item.productId) == Some(i);
  }
}
