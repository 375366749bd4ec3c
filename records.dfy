/** Value types shared by the point-of-sale cart and the backend services.
    Money is modelled as integer cents, so every total is exact. */
module Records {

  datatype Option<T> = None | Some(value: T)

  /** The outcome of a service call that may throw. */
  datatype Result<T, E> = Ok(value: T) | Err(error: E)

  /** A catalog product as the backend stores it and the frontend receives it. */
  datatype Product = Product(id: string, name: string, code: string, price: int, stockQty: int)

  /** One cart line. The checkout sends the cart's lines unchanged as the
      request lines of a sale, so the same shape serves both. */
  datatype CartItem = CartItem(productId: string, name: string, price: int, quantity: int)

  function LineTotal(item: CartItem): int
  {
    item.price * item.quantity
  }

  /** Sum of price times quantity over the lines. */
  function Total(items: seq<CartItem>): int
  {
    if items == [] then 0 else LineTotal(items[0]) + Total(items[1..])
  }

  /** Lines with non-negative prices and quantities never sum to a negative
      total, and the empty list sums to 0. */
  lemma {:induction false} TotalNonNegative(items: seq<CartItem>)
    requires forall i :: 0 <= i < |items| ==> items[i].price >= 0 && items[i].quantity >= 0
    ensures Total(items) >= 0
    ensures items == [] ==> Total(items) == 0
  {
    if items != [] {
      assert items[0].price * items[0].quantity >= 0;
      TotalNonNegative(items[1..]);
    }
  }

  /** Appending a line adds exactly that line's total. */
  lemma {:induction false} TotalAppend(items: seq<CartItem>, x: CartItem)
    ensures Total(items + [x]) == Total(items) + LineTotal(x)
  {
    if items == [] {
      assert items + [x] == [x];
    } else {
      assert (items + [x])[1..] == items[1..] + [x];
      TotalAppend(items[1..], x);
    }
  }

  /** Replacing one line changes the total by the difference of the two line totals. */
  lemma {:induction false} TotalUpdate(items: seq<CartItem>, k: nat, x: CartItem)
    requires k < |items|
    ensures Total(items[k := x]) == Total(items) - LineTotal(items[k]) + LineTotal(x)
  {
    if k > 0 {
      assert items[k := x][1..] == items[1..][k - 1 := x];
      TotalUpdate(items[1..], k - 1, x);
    } else {
      assert items[k := x][1..] == items[1..];
    }
  }
}
