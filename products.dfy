/** The backend product store: a table of products keyed by id, with the
    check-then-decrement stock update that checkout relies on. */
module Products {
  import opened Records

  datatype ProductError =
    | NotFound(id: string)                // "Product with ID … not found"
    | NotEnoughStock(productName: string) // "Not enough stock for product: …"
    | ValidationFailed                    // a schema bound (min: 0) is broken on save
    | DuplicateCode(code: string)         // the unique index on code rejects the write

  /** The fields a create request supplies; stock defaults to 0 when absent. */
  datatype NewProduct = NewProduct(name: string, code: string, price: int, stockQty: Option<int>)

  /** The fields an update request supplies; absent fields are left as they are. */
  datatype ProductPatch = ProductPatch(
    name: Option<string>, code: Option<string>, price: Option<int>, stockQty: Option<int>)

  type Table = map<string, Product>

  function StockOrDefault(dto: NewProduct): int
  {
    match dto.stockQty
    case Some(q) => q
    case None => 0
  }

  /** Some product other than the one with id `except` already uses `code`. */
  predicate CodeTaken(table: Table, code: string, except: string)
  {
    exists k :: k in table && k != except && table[k].code == code
  }

  ghost predicate UniqueCodes(table: Table)
  {
    forall j, k :: j in table && k in table && table[j].code == table[k].code ==> j == k
  }

  /** The record an update writes: every supplied field overwritten, the rest kept. */
  function ApplyPatch(p: Product, patch: ProductPatch): (r: Product)
    ensures r.id == p.id
    ensures r.name == (if patch.name.Some? then patch.name.value else p.name)
    ensures r.code == (if patch.code.Some? then patch.code.value else p.code)
    ensures r.price == (if patch.price.Some? then patch.price.value else p.price)
    ensures r.stockQty == (if patch.stockQty.Some? then patch.stockQty.value else p.stockQty)
  {
    Product(
      p.id,
      match patch.name case Some(n) => n case None => p.name,
      match patch.code case Some(c) => c case None => p.code,
      match patch.price case Some(x) => x case None => p.price,
      match patch.stockQty case Some(q) => q case None => p.stockQty)
  }

  /** One stock update on a table, as a value: the product is looked up
      (NotFound if absent), the request is refused when the stock on hand is
      below the quantity, and otherwise the product comes back with its stock
      lowered by the quantity and every other field as it was. */
  function Reserve(table: Table, id: string, quantity: int): (r: Result<Product, ProductError>)
    ensures r.Ok? <==> id in table && quantity <= table[id].stockQty
    ensures id !in table ==> r == Err(NotFound(id))
    ensures id in table && table[id].stockQty < quantity ==> r == Err(NotEnoughStock(table[id].name))
    ensures r.Ok? ==> r.value.stockQty == table[id].stockQty - quantity && r.value.stockQty >= 0
    ensures r.Ok? ==> r.value.(stockQty := table[id].stockQty) == table[id]
  {
    if id !in table then Err(NotFound(id))
    else if table[id].stockQty < quantity then Err(NotEnoughStock(table[id].name))
    else Ok(table[id].(stockQty := table[id].stockQty - quantity))
  }

  /** The products stored under the given ids, in that order. */
  function Collect(table: Table, ids: seq<string>): (r: seq<Product>)
    requires forall i :: 0 <= i < |ids| ==> ids[i] in table
    ensures |r| == |ids|
    ensures forall i :: 0 <= i < |ids| ==> r[i] == table[ids[i]]
  {
    if ids == [] then [] else [table[ids[0]]] + Collect(table, ids[1..])
  }

  class ProductsService {
    /** The stored products, keyed by id. */
    var products: Table
    /** The ids in the order the products were created. A full listing
        returns them in this order, which is one order the unsorted query
        may produce. */
    var order: seq<string>

    ghost predicate Valid()
      reads this
    {
      && (forall k :: k in products ==> products[k].id == k)
      && (forall k :: k in products <==> k in order)
      && (forall i, j :: 0 <= i < j < |order| ==> order[i] != order[j])
      && UniqueCodes(products)
    }

    constructor ()
      ensures Valid() && products == map[] && order == []
    {
      products := map[];
      order := [];
    }

    /** Every stored product, each once, in creation order. */
    function FindAll(): (r: seq<Product>)
      reads this
      requires Valid()
      ensures forall k :: k in products ==> products[k] in r
      ensures forall i :: 0 <= i < |r| ==> r[i].id in products && products[r[i].id] == r[i]
      ensures forall i, j :: 0 <= i < j < |r| ==> r[i].id != r[j].id
    {
      var r := Collect(products, order);
      assert forall k :: k in products ==> products[k] in r by {
        forall k | k in products ensures products[k] in r {
          var i :| 0 <= i < |order| && order[i] == k;
          assert r[i] == products[k];
        }
      }
      r
    }

    /** The stored product for a present id; NotFound otherwise. */
    function FindOne(id: string): (r: Result<Product, ProductError>)
      reads this
      ensures r.Ok? <==> id in products
      ensures r.Ok? ==> r.value == products[id]
      ensures r.Err? ==> r.error == NotFound(id)
    {
      if id in products then Ok(products[id]) else Err(NotFound(id))
    }

    /** Saves a new product under the id the store assigns. Saving checks the
        schema (price and stock at least 0, stock 0 when absent) and then the
        unique index on the code. */
    method Create(dto: NewProduct, newId: string) returns (r: Result<Product, ProductError>)
      requires Valid()
      requires newId !in products
      modifies this
      ensures Valid()
      ensures r.Ok? <==> dto.price >= 0 && StockOrDefault(dto) >= 0 && !CodeTaken(old(products), dto.code, newId)
      ensures (dto.price < 0 || StockOrDefault(dto) < 0) ==> r == Err(ValidationFailed)
      ensures dto.price >= 0 && StockOrDefault(dto) >= 0 && CodeTaken(old(products), dto.code, newId) ==>
        r == Err(DuplicateCode(dto.code))
      ensures r.Ok? ==> r.value == Product(newId, dto.name, dto.code, dto.price, StockOrDefault(dto))
      ensures r.Ok? ==> products == old(products)[newId := r.value] && order == old(order) + [newId]
      ensures r.Ok? ==> r.value in FindAll() && FindOne(newId) == Ok(r.value)
      ensures r.Err? ==> products == old(products) && order == old(order)
    {
      var stock := StockOrDefault(dto);
      if dto.price < 0 || stock < 0 {
        return Err(ValidationFailed);
      }
      if CodeTaken(products, dto.code, newId) {
        return Err(DuplicateCode(dto.code));
      }
      var p := Product(newId, dto.name, dto.code, dto.price, stock);
      assert newId !in order;
      AddKeepsUniqueCodes(products, newId, p);
      products := products[newId := p];
      order := order + [newId];
      r := Ok(p);
      assert order[|order| - 1] == newId;
    }

    /** Overwrites the supplied fields of a stored product and returns the new
        record. An unknown id is NotFound. The write runs no schema
        validators; only the unique index on the code can refuse it. */
    method Update(id: string, patch: ProductPatch) returns (r: Result<Product, ProductError>)
      requires Valid()
      modifies this
      ensures Valid()
      ensures order == old(order)
      ensures id !in old(products) ==> r == Err(NotFound(id))
      ensures id in old(products) ==>
        var updated := ApplyPatch(old(products)[id], patch);
        if CodeTaken(old(products), updated.code, id) then r == Err(DuplicateCode(updated.code))
        else r == Ok(updated)
      ensures r.Ok? ==> products == old(products)[id := r.value] && FindOne(id) == r
      ensures r.Err? ==> products == old(products)
    {
      if id !in products {
        return Err(NotFound(id));
      }
      var updated := ApplyPatch(products[id], patch);
      if CodeTaken(products, updated.code, id) {
        return Err(DuplicateCode(updated.code));
      }
      products := products[id := updated];
      r := Ok(updated);
    }

    /** Looks the product up, refuses when its stock is below the quantity,
        and otherwise writes it back with the stock lowered. The sign of the
        quantity is not checked: a negative quantity raises the stock. */
    method UpdateStock(id: string, quantity: int) returns (r: Result<Product, ProductError>)
      requires Valid()
      modifies this
      ensures Valid()
      ensures order == old(order)
      ensures r == Reserve(old(products), id, quantity)
      ensures products == if r.Ok? then old(products)[id := r.value] else old(products)
    {
      var found := FindOne(id);
      if found.Err? {
        return Err(found.error);
      }
      var product := found.value;
      if product.stockQty < quantity {
        return Err(NotEnoughStock(product.name));
      }
      product := product.(stockQty := product.stockQty - quantity);
      products := products[id := product];
      r := Ok(product);
    }
  }

  lemma AddKeepsUniqueCodes(table: Table, id: string, p: Product)
    requires UniqueCodes(table)
    requires !CodeTaken(table, p.code, id)
    ensures UniqueCodes(table[id := p])
  {
  }

  /** A refused stock update leaves the whole table as it was; an accepted one
      changes the target product's stock and nothing else, in that product or
      in any other. */
  lemma ReserveFrame(table: Table, id: string, quantity: int, k: string)
    requires k in table
    ensures var r := Reserve(table, id, quantity);
      var after := if r.Ok? then table[id := r.value] else table;
      && after.Keys == table.Keys
      && (k != id || r.Err? ==> after[k] == table[k])
      && (k == id && r.Ok? ==> after[k] == table[k].(stockQty := table[k].stockQty - quantity))
  {
  }

  /** Stock never goes negative through a stock update: from a table whose
      stocks are all at least 0, every stock stays at least 0. */
  lemma ReserveKeepsStockNonNegative(table: Table, id: string, quantity: int)
    requires quantity >= 1
    requires forall k :: k in table ==> table[k].stockQty >= 0
    ensures var r := Reserve(table, id, quantity);
      var after := if r.Ok? then table[id := r.value] else table;
      forall k :: k in after ==> 0 <= after[k].stockQty <= table[k].stockQty
  {
  }
}
