/** The stock maps of `InventoryManagementDemo`. `UnsafeInventory`,
    `SynchronizedInventory` and `ReadWriteLockInventory` run the same
    sequential code under different locks and are modelled once, by
    `Inventory`; `ConcurrentInventory` keeps an atomic counter per product
    and decreases it with a compare-and-set retry loop. The stock rules
    themselves are the pure functions `Restocked` and `Decreased`. */
module InventoryManagement {

  type ProductId = string

  /** `getStock`: the recorded stock, 0 for an unknown product. */
  function StockOf(stock: map<ProductId, int>, id: ProductId): int
  {
    if id in stock then stock[id] else 0
  }

  /** `updateStock`: an unknown product starts at `quantity`, a known one gains `quantity`. */
  function Restocked(stock: map<ProductId, int>, id: ProductId, quantity: int): (r: map<ProductId, int>)
    ensures r.Keys == stock.Keys + {id}
    ensures StockOf(r, id) == StockOf(stock, id) + quantity
    ensures forall k :: k != id ==> StockOf(r, k) == StockOf(stock, k)
  {
    if id !in stock then stock[id := quantity] else stock[id := stock[id] + quantity]
  }

  /** The outcome of `decreaseStock`: whether it succeeded, and the new map. */
  datatype Decrease = Decrease(ok: bool, stock: map<ProductId, int>)

  /** `decreaseStock`: fails on an unknown product or insufficient stock, and
      otherwise takes `quantity` away. */
  function Decreased(stock: map<ProductId, int>, id: ProductId, quantity: int): (r: Decrease)
    ensures r.ok <==> id in stock && stock[id] >= quantity
    ensures !r.ok ==> r.stock == stock
    ensures r.ok ==> r.stock.Keys == stock.Keys && r.stock[id] == stock[id] - quantity
    ensures r.ok ==> r.stock[id] >= 0
    ensures forall k :: k != id ==> StockOf(r.stock, k) == StockOf(stock, k)
  {
    if id !in stock || stock[id] < quantity then Decrease(false, stock)
    else Decrease(true, stock[id := stock[id] - quantity])
  }

  /** No stock is ever negative. */
  ghost predicate NonNegative(stock: map<ProductId, int>)
  {
    forall k :: k in stock ==> stock[k] >= 0
  }

  /** Decreases keep every stock non-negative, and so do restocks by a non-negative amount. */
  lemma StockStaysNonNegative(stock: map<ProductId, int>, id: ProductId, quantity: int)
    requires NonNegative(stock)
    ensures NonNegative(Decreased(stock, id, quantity).stock)
    ensures quantity >= 0 ==> NonNegative(Restocked(stock, id, quantity))
  {
    var d := Decreased(stock, id, quantity).stock;
    forall k | k in d
      ensures d[k] >= 0
    {
      if k != id {
        assert StockOf(d, k) == StockOf(stock, k);
      }
    }
    if quantity >= 0 {
      var u := Restocked(stock, id, quantity);
      forall k | k in u
        ensures u[k] >= 0
      {
        if k != id {
          assert StockOf(u, k) == StockOf(stock, k);
        }
      }
    }
  }

  /** `UnsafeInventory` (and its synchronized and read-write-locked twins). */
  class Inventory {
    var productStock: map<ProductId, int>

    constructor ()
      ensures productStock == map[]
    {
      productStock := map[];
    }

    method UpdateStock(id: ProductId, quantity: int)
      modifies this
      ensures productStock == Restocked(old(productStock), id, quantity)
    {
      if id !in productStock {
        productStock := productStock[id := quantity];
      } else {
        var currentQuantity := productStock[id];
        productStock := productStock[id := currentQuantity + quantity];
      }
    }

    method DecreaseStock(id: ProductId, quantity: int) returns (ok: bool)
      modifies this
      ensures Decrease(ok, productStock) == Decreased(old(productStock), id, quantity)
    {
      if id !in productStock || productStock[id] < quantity {
        return false;
      }
      productStock := productStock[id := productStock[id] - quantity];
      ok := true;
    }

    method GetStock(id: ProductId) returns (s: int)
      ensures s == StockOf(productStock, id)
    {
      s := if id in productStock then productStock[id] else 0;
    }

    /** `getAllStock`: a copy of the current map. */
    method GetAllStock() returns (copy: map<ProductId, int>)
      ensures copy == productStock
    {
      copy := productStock;
    }
  }

  /** `ConcurrentInventory`: one atomic counter per product. */
  class ConcurrentInventory {
    var productStock: map<ProductId, int>

    constructor ()
      ensures productStock == map[]
    {
      productStock := map[];
    }

    /** `AtomicInteger.compareAndSet` on the counter of `id`. */
    method CompareAndSet(id: ProductId, expected: int, newValue: int) returns (swapped: bool)
      requires id in productStock
      modifies this
      ensures swapped == (old(productStock)[id] == expected)
      ensures productStock == if swapped then old(productStock)[id := newValue] else old(productStock)
    {
      swapped := productStock[id] == expected;
      if swapped {
        productStock := productStock[id := newValue];
      }
    }

    /** `computeIfAbsent(id, 0).addAndGet(quantity)`: the same rule as `Inventory.UpdateStock`. */
    method UpdateStock(id: ProductId, quantity: int)
      modifies this
      ensures productStock == Restocked(old(productStock), id, quantity)
    {
      if id !in productStock {
        productStock := productStock[id := 0];
      }
      productStock := productStock[id := productStock[id] + quantity];
    }

    /** The compare-and-set retry loop. With a single caller the first
        compare-and-set succeeds, and the result is that of `Inventory.DecreaseStock`. */
    method DecreaseStock(id: ProductId, quantity: int) returns (ok: bool)
      modifies this
      ensures Decrease(ok, productStock) == Decreased(old(productStock), id, quantity)
    {
      if id !in productStock {
        return false;
      }
      // do { currentValue = stock.get(); ... } while (!stock.compareAndSet(...))
      var swapped := false;
      while !swapped
        invariant swapped ==> productStock == Decreased(old(productStock), id, quantity).stock
        invariant swapped ==> Decreased(old(productStock), id, quantity).ok
        invariant !swapped ==> productStock == old(productStock)
        decreases if swapped then 0 else 1
      {
        var currentValue := productStock[id];
        if currentValue < quantity {
          return false;
        }
        swapped := CompareAndSet(id, currentValue, currentValue - quantity);
      }
      ok := true;
    }

    method GetStock(id: ProductId) returns (s: int)
      ensures s == StockOf(productStock, id)
    {
      s := if id in productStock then productStock[id] else 0;
    }

    /** `getAllStock`: copies every counter's value into a fresh map, one entry at a time. */
    method GetAllStock() returns (result: map<ProductId, int>)
      ensures result == productStock
    {
      result := map[];
      var pending := productStock.Keys;
      while pending != {}
        invariant pending <= productStock.Keys
        invariant result.Keys == productStock.Keys - pending
        invariant forall k :: k in result ==> result[k] == productStock[k]
        decreases pending
      {
        var key :| key in pending;
        result := result[key := productStock[key]];
        pending := pending - {key};
      }
    }
  }
}
