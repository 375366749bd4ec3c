/** Sale creation and the sale store. Creating a sale walks the request lines
    in order and performs one stock update per line against the product
    store; the first refused update ends the sale with an error, and the
    updates of the earlier lines stay in place. */
module Sales {
  import opened Records
  import opened Products

  /** A saved sale line: the request line plus its total. */
  datatype SaleItem = SaleItem(productId: string, name: string, price: int, quantity: int, total: int)

  datatype Sale = Sale(id: string, items: seq<SaleItem>, totalAmount: int)

  datatype SaleError =
    | ProcessingFailed(cause: ProductError) // "Failed to process sale: …"
    | InvalidIdFormat                       // "Invalid sale ID format"
    | SaleNotFound(id: string)              // "Sale with ID … not found"
    | SaveRejected                          // the sale schema refuses the document on save

  // ---------------------------------------------------------------------
  // Line totals

  function ToSaleItem(line: CartItem): SaleItem
  {
    SaleItem(line.productId, line.name, line.price, line.quantity, LineTotal(line))
  }

  /** The request line a saved line was copied from. */
  function ToLine(item: SaleItem): CartItem
  {
    CartItem(item.productId, item.name, item.price, item.quantity)
  }

  /** The saved lines: one per request line, in the same order, each a copy
      of its request line with the line total added. */
  function SaleItems(lines: seq<CartItem>): (r: seq<SaleItem>)
    ensures |r| == |lines|
    ensures forall i :: 0 <= i < |lines| ==> ToLine(r[i]) == lines[i] && r[i].total == lines[i].price * lines[i].quantity
  {
    seq(|lines|, i requires 0 <= i < |lines| => ToSaleItem(lines[i]))
  }

  /** Sum of the saved lines' totals. */
  function ItemsTotal(items: seq<SaleItem>): int
  {
    if items == [] then 0 else items[0].total + ItemsTotal(items[1..])
  }

  /** The sale's amount, computed from the request's own prices, equals the
      sum of the totals of the lines it saves. */
  lemma {:induction false} TotalAmountMatchesItems(lines: seq<CartItem>)
    ensures ItemsTotal(SaleItems(lines)) == Total(lines)
  {
    if lines != [] {
      assert SaleItems(lines)[1..] == SaleItems(lines[1..]);
      TotalAmountMatchesItems(lines[1..]);
    }
  }

  ghost predicate WellFormedSale(sale: Sale)
  {
    && sale.totalAmount == ItemsTotal(sale.items)
    && forall i :: 0 <= i < |sale.items| ==>
         sale.items[i].quantity >= 1 && sale.items[i].total == sale.items[i].price * sale.items[i].quantity
  }

  /** The sale schema's checks on the saved lines that a request can break:
      a non-empty name (a required string) and a quantity of at least 1. The
      other required fields are always present here: ids and numbers are
      values, and a line's product id has already passed its stock update. */
  predicate SaveAccepts(lines: seq<CartItem>)
  {
    forall i :: 0 <= i < |lines| ==> lines[i].name != "" && lines[i].quantity >= 1
  }

  // ---------------------------------------------------------------------
  // The stock updates of one sale, as a value

  datatype FailedLine = FailedLine(index: nat, error: ProductError)

  /** The product table after the stock loop, and the first line it stopped
      on, if any. */
  datatype StockRun = StockRun(table: Table, failure: Option<FailedLine>)

  /** The stock loop: line i is checked against the stock left by lines
      0..i-1; the first refusal stops the loop, and what the earlier lines
      took is not given back. */
  function ApplyLines(table: Table, lines: seq<CartItem>): (r: StockRun)
    ensures r.table.Keys == table.Keys
    ensures r.failure.Some? ==> r.failure.value.index < |lines|
    decreases |lines|
  {
    if lines == [] then StockRun(table, None)
    else
      var prev := ApplyLines(table, lines[..|lines| - 1]);
      var line := lines[|lines| - 1];
      if prev.failure.Some? then prev
      else
        match Reserve(prev.table, line.productId, line.quantity)
        case Err(e) => StockRun(prev.table, Some(FailedLine(|lines| - 1, e)))
        case Ok(p) => StockRun(prev.table[line.productId := p], None)
  }

  /** The total quantity the lines ask of one product. */
  function Demand(lines: seq<CartItem>, id: string): int
  {
    if lines == [] then 0
    else
      var line := lines[|lines| - 1];
      Demand(lines[..|lines| - 1], id) + (if line.productId == id then line.quantity else 0)
  }

  /** After a loop that went through, each product's stock is lower by the
      summed quantity of the lines naming it, and nothing else has changed. */
  lemma {:induction false} ApplyLinesSuccess(table: Table, lines: seq<CartItem>)
    requires ApplyLines(table, lines).failure.None?
    ensures var after := ApplyLines(table, lines).table;
      forall k :: k in table ==> after[k] == table[k].(stockQty := table[k].stockQty - Demand(lines, k))
  {
    if lines != [] {
      var init := lines[..|lines| - 1];
      var line := lines[|lines| - 1];
      ApplyLinesSuccess(table, init);
    }
  }

  /** With quantities of at least 1, the loop goes through exactly when every
      line names a stored product whose stock covers the summed quantity of
      all lines naming it: repeated lines for one product are checked against
      the running stock, which comes to checking their sum. */
  lemma {:induction false} ApplyLinesSucceedsIff(table: Table, lines: seq<CartItem>)
    requires forall i :: 0 <= i < |lines| ==> lines[i].quantity >= 1
    ensures ApplyLines(table, lines).failure.None? <==> AllCovered(table, lines)
  {
    if lines != [] {
      var init := lines[..|lines| - 1];
      var line := lines[|lines| - 1];
      var prev := ApplyLines(table, init);
      ApplyLinesSucceedsIff(table, init);
      DemandMonotone(lines);
      assert forall i :: 0 <= i < |init| ==> lines[i] == init[i];
      if prev.failure.None? {
        ApplyLinesSuccess(table, init);
        var id := line.productId;
        if id in table {
          assert Demand(lines, id) == Demand(init, id) + line.quantity;
          if Reserve(prev.table, id, line.quantity).Ok? {
            assert prev.table[id].stockQty == table[id].stockQty - Demand(init, id);
            assert Demand(lines, id) <= table[id].stockQty;
            forall i | 0 <= i < |lines|
              ensures lines[i].productId in table && Demand(lines, lines[i].productId) <= table[lines[i].productId].stockQty
            {
              if i < |init| && lines[i].productId != id {
                assert init[i] == lines[i] && Covered(table, init, i);
                assert Demand(lines, lines[i].productId) == Demand(init, lines[i].productId);
              }
            }
          } else {
            assert !Covered(table, lines, |lines| - 1);
          }
        } else {
          assert !Covered(table, lines, |lines| - 1);
        }
      } else {
        var i :| 0 <= i < |init| && !Covered(table, init, i);
        assert init[i] == lines[i];
        assert !Covered(table, lines, i);
      }
    }
  }

  /** Line i names a stored product whose stock covers everything the lines ask of it. */
  ghost predicate Covered(table: Table, lines: seq<CartItem>, i: int)
    requires 0 <= i < |lines|
  {
    lines[i].productId in table && Demand(lines, lines[i].productId) <= table[lines[i].productId].stockQty
  }

  ghost predicate AllCovered(table: Table, lines: seq<CartItem>)
  {
    forall i :: 0 <= i < |lines| ==> Covered(table, lines, i)
  }

  /** With non-negative quantities a longer request never asks for less. */
  lemma DemandMonotone(lines: seq<CartItem>)
    requires lines != []
    requires lines[|lines| - 1].quantity >= 0
    ensures forall k :: Demand(lines, k) >= Demand(lines[..|lines| - 1], k)
  {
  }

  /** Once a prefix of the lines has failed, the loop's outcome is that of the prefix. */
  lemma {:induction false} FailureSticks(table: Table, lines: seq<CartItem>, j: nat)
    requires j <= |lines|
    requires ApplyLines(table, lines[..j]).failure.Some?
    ensures ApplyLines(table, lines) == ApplyLines(table, lines[..j])
    decreases |lines|
  {
    if j < |lines| {
      var init := lines[..|lines| - 1];
      assert init[..j] == lines[..j];
      FailureSticks(table, init, j);
    } else {
      assert lines[..j] == lines;
    }
  }

  /** A loop that stops on line k leaves the table exactly as lines 0..k-1
      made it, and line k is the one its stock update refused: there is no
      rollback of the earlier lines. */
  lemma {:induction false} ApplyLinesFailure(table: Table, lines: seq<CartItem>)
    requires ApplyLines(table, lines).failure.Some?
    ensures var f := ApplyLines(table, lines).failure.value;
      var before := ApplyLines(table, lines[..f.index]);
      && before.failure.None?
      && ApplyLines(table, lines).table == before.table
      && Reserve(before.table, lines[f.index].productId, lines[f.index].quantity) == Err(f.error)
  {
    var init := lines[..|lines| - 1];
    var prev := ApplyLines(table, init);
    if prev.failure.Some? {
      ApplyLinesFailure(table, init);
      var f := prev.failure.value;
      assert init[..f.index] == lines[..f.index];
    } else {
      assert lines[..|lines| - 1] == init;
    }
  }

  /** Two lines of 3 and 4 units of one product against a stock of 6: the
      second line is refused after the first has taken 3. */
  lemma DuplicateLinesShortOfStock()
    ensures var table := map["a" := Product("a", "Tea", "T1", 250, 6)];
      var run := ApplyLines(table, [CartItem("a", "Tea", 250, 3), CartItem("a", "Tea", 250, 4)]);
      run.failure == Some(FailedLine(1, NotEnoughStock("Tea"))) && run.table["a"].stockQty == 3
  {
    var table := map["a" := Product("a", "Tea", "T1", 250, 6)];
    var lines := [CartItem("a", "Tea", 250, 3), CartItem("a", "Tea", 250, 4)];
    assert lines[..1] == [lines[0]] && lines[..1][..0] == [];
  }

  /** The same two lines against a stock of 7 go through and take all 7. */
  lemma DuplicateLinesWithinStock()
    ensures var table := map["a" := Product("a", "Tea", "T1", 250, 7)];
      var run := ApplyLines(table, [CartItem("a", "Tea", 250, 3), CartItem("a", "Tea", 250, 4)]);
      run.failure.None? && run.table["a"].stockQty == 0
  {
    var lines := [CartItem("a", "Tea", 250, 3), CartItem("a", "Tea", 250, 4)];
    assert lines[..1] == [lines[0]] && lines[..1][..0] == [];
  }

  /** A request whose second line fails leaves the first line's product
      decremented. */
  lemma NoRollback()
    ensures var table := map["a" := Product("a", "Tea", "T1", 250, 5), "b" := Product("b", "Jam", "J1", 400, 0)];
      var run := ApplyLines(table, [CartItem("a", "Tea", 250, 2), CartItem("b", "Jam", 400, 1)]);
      run.failure == Some(FailedLine(1, NotEnoughStock("Jam"))) && run.table["a"].stockQty == 3
  {
    var lines := [CartItem("a", "Tea", 250, 2), CartItem("b", "Jam", 400, 1)];
    assert lines[..1] == [lines[0]] && lines[..1][..0] == [];
  }

  // ---------------------------------------------------------------------
  // Sale ids

  predicate IsHexDigit(c: char)
  {
    '0' <= c <= '9' || 'a' <= c <= 'f' || 'A' <= c <= 'F'
  }

  /** The well-formedness test for a sale id given as a string: 24 hexadecimal digits. */
  predicate ValidObjectId(s: string)
  {
    |s| == 24 && forall i :: 0 <= i < |s| ==> IsHexDigit(s[i])
  }

  /** The first stored sale with that id, if any. */
  function Lookup(sales: seq<Sale>, id: string): (r: Option<Sale>)
    ensures r.Some? <==> exists i :: 0 <= i < |sales| && sales[i].id == id
    ensures r.Some? ==> r.value in sales && r.value.id == id
  {
    if sales == [] then None
    else if sales[0].id == id then Some(sales[0])
    else
      var r := Lookup(sales[1..], id);
      assert forall i :: 1 <= i < |sales| ==> sales[1..][i - 1] == sales[i];
      r
  }

  lemma {:induction false} LookupUnique(sales: seq<Sale>, i: nat)
    requires i < |sales|
    requires forall a, b :: 0 <= a < b < |sales| ==> sales[a].id != sales[b].id
    ensures Lookup(sales, sales[i].id) == Some(sales[i])
  {
    if i > 0 {
      assert sales[1..][i - 1] == sales[i];
      LookupUnique(sales[1..], i - 1);
    }
  }

  /** One turn of the stock loop: after lines 0..i-1 went through, line i
      is checked against the table they left. */
  lemma ApplyLinesStep(table: Table, lines: seq<CartItem>, i: nat)
    requires i < |lines|
    requires ApplyLines(table, lines[..i]).failure.None?
    ensures var before := ApplyLines(table, lines[..i]).table;
      ApplyLines(table, lines[..i + 1]) ==
        match Reserve(before, lines[i].productId, lines[i].quantity)
        case Err(e) => StockRun(before, Some(FailedLine(i, e)))
        case Ok(p) => StockRun(before[lines[i].productId := p], None)
  {
    assert lines[..i + 1][..i] == lines[..i];
  }

  /** The saved sales have distinct, well-formed ids, and each sale's amount
      matches its lines. */
  ghost predicate ValidStore(sales: seq<Sale>)
  {
    && (forall i, j :: 0 <= i < j < |sales| ==> sales[i].id != sales[j].id)
    && (forall i :: 0 <= i < |sales| ==> ValidObjectId(sales[i].id) && WellFormedSale(sales[i]))
  }

  /** A sale built from request lines with quantities of at least 1 is well formed. */
  lemma NewSaleWellFormed(lines: seq<CartItem>, id: string)
    requires SaveAccepts(lines)
    ensures WellFormedSale(Sale(id, SaleItems(lines), Total(lines)))
  {
    TotalAmountMatchesItems(lines);
  }

  lemma AppendKeepsValidStore(sales: seq<Sale>, sale: Sale)
    requires ValidStore(sales)
    requires ValidObjectId(sale.id) && WellFormedSale(sale)
    requires forall i :: 0 <= i < |sales| ==> sales[i].id != sale.id
    ensures ValidStore(sales + [sale])
  {
  }

  // ---------------------------------------------------------------------
  // The sale store

  class SalesService {
    const catalog: ProductsService
    /** The saved sales, oldest first. */
    var sales: seq<Sale>

    ghost predicate Valid()
      reads this
    {
      ValidStore(sales)
    }

    predicate IdInUse(id: string)
      reads this
    {
      exists i :: 0 <= i < |sales| && sales[i].id == id
    }

    constructor (catalog: ProductsService)
      ensures Valid() && this.catalog == catalog && sales == []
    {
      this.catalog := catalog;
      sales := [];
    }

    /** Creates a sale from the request lines under the id the store assigns.
        The stock of every line is updated in request order; a refused
        update ends the call with ProcessingFailed and saves no sale, while
        the stock taken by the earlier lines stays taken. Otherwise the sale
        is built with one line per request line and the total computed from
        the request's prices, and saved. The save is returned without being
        awaited inside the error handler, so a save the schema refuses
        surfaces unwrapped as SaveRejected, after all the stock was taken. */
    method Create(lines: seq<CartItem>, newId: string) returns (r: Result<Sale, SaleError>)
      requires Valid() && catalog.Valid()
      requires ValidObjectId(newId) && !IdInUse(newId)
      modifies this, catalog
      ensures Valid() && catalog.Valid()
      ensures catalog.order == old(catalog.order)
      ensures catalog.products == ApplyLines(old(catalog.products), lines).table
      ensures r.Ok? <==> ApplyLines(old(catalog.products), lines).failure.None? && SaveAccepts(lines)
      ensures r.Ok? ==> r.value == Sale(newId, SaleItems(lines), Total(lines)) && sales == old(sales) + [r.value]
      ensures r.Err? ==> sales == old(sales)
      ensures ApplyLines(old(catalog.products), lines).failure.Some? ==>
        r == Err(ProcessingFailed(ApplyLines(old(catalog.products), lines).failure.value.error))
      ensures ApplyLines(old(catalog.products), lines).failure.None? && !SaveAccepts(lines) ==>
        r == Err(SaveRejected)
    {
      ghost var start := catalog.products;
      var i := 0;
      while i < |lines|
        invariant 0 <= i <= |lines|
        invariant catalog.Valid() && catalog.order == old(catalog.order)
        invariant ApplyLines(start, lines[..i]) == StockRun(catalog.products, None)
        invariant sales == old(sales)
      {
        ApplyLinesStep(start, lines, i);
        var updated := catalog.UpdateStock(lines[i].productId, lines[i].quantity);
        if updated.Err? {
          FailureSticks(start, lines, i + 1);
          return Err(ProcessingFailed(updated.error));
        }
        i := i + 1;
      }
      assert lines[..i] == lines;
      var sale := Sale(newId, SaleItems(lines), Total(lines));
      if !SaveAccepts(lines) {
        return Err(SaveRejected);
      }
      NewSaleWellFormed(lines, newId);
      AppendKeepsValidStore(sales, sale);
      sales := sales + [sale];
      r := Ok(sale);
    }

    /** Every saved sale, oldest first; each is what a lookup of its id returns. */
    function FindAll(): (r: seq<Sale>)
      reads this
      requires Valid()
      ensures forall i :: 0 <= i < |r| ==> FindById(r[i].id) == Ok(r[i])
      ensures forall s :: s in sales <==> s in r
    {
      assert forall i :: 0 <= i < |sales| ==> Lookup(sales, sales[i].id) == Some(sales[i]) by {
        forall i | 0 <= i < |sales| ensures Lookup(sales, sales[i].id) == Some(sales[i]) {
          LookupUnique(sales, i);
        }
      }
      sales
    }

    /** A malformed id is refused before the lookup; a well-formed id of no
        saved sale is NotFound; otherwise the saved sale comes back. */
    function FindById(id: string): (r: Result<Sale, SaleError>)
      reads this
      ensures !ValidObjectId(id) ==> r == Err(InvalidIdFormat)
      ensures ValidObjectId(id) && !IdInUse(id) ==> r == Err(SaleNotFound(id))
      ensures r.Ok? <==> ValidObjectId(id) && IdInUse(id)
      ensures r.Ok? ==> r.value in sales && r.value.id == id
    {
      if !ValidObjectId(id) then Err(InvalidIdFormat)
      else
        match Lookup(sales, id)
        case None => Err(SaleNotFound(id))
        case Some(sale) => Ok(sale)
    }
  }
}
