/** The client-side cart: a pure reducer over the cart state. Every action
    builds a fresh state and recomputes the cached total from the items. */
module Cart {
  import opened Records

  datatype CartState = CartState(items: seq<CartItem>, total: int)

  datatype CartAction =
    | AddItem(product: Product)
    | RemoveItem(productId: string)
    | IncreaseQuantity(productId: string)
    | DecreaseQuantity(productId: string)
    | ClearCart

  const InitialState: CartState := CartState([], 0)

  /** The cart's invariant: one line per product, every quantity at least 1,
      and the cached total equal to the sum over the lines. */
  ghost predicate Valid(state: CartState)
  {
    && UniqueIds(state.items)
    && AllPositive(state.items)
    && state.total == Total(state.items)
  }

  ghost predicate UniqueIds(items: seq<CartItem>)
  {
    forall i, j :: 0 <= i < j < |items| ==> items[i].productId != items[j].productId
  }

  ghost predicate AllPositive(items: seq<CartItem>)
  {
    forall i :: 0 <= i < |items| ==> items[i].quantity >= 1
  }

  predicate Contains(items: seq<CartItem>, id: string)
  {
    exists i :: 0 <= i < |items| && items[i].productId == id
  }

  /** Every line of that product gets one more unit. */
  function IncreaseMatching(items: seq<CartItem>, id: string): seq<CartItem>
  {
    seq(|items|, i requires 0 <= i < |items| =>
      if items[i].productId == id then items[i].(quantity := items[i].quantity + 1) else items[i])
  }

  /** Every line of that product with more than one unit gets one unit less. */
  function DecreaseMatching(items: seq<CartItem>, id: string): seq<CartItem>
  {
    seq(|items|, i requires 0 <= i < |items| =>
      if items[i].productId == id && items[i].quantity > 1
      then items[i].(quantity := items[i].quantity - 1) else items[i])
  }

  /** The lines of every other product, in their original order. */
  function Without(items: seq<CartItem>, id: string): seq<CartItem>
  {
    if items == [] then []
    else if items[0].productId == id then Without(items[1..], id)
    else [items[0]] + Without(items[1..], id)
  }

  function NewItem(product: Product): CartItem
  {
    CartItem(product.id, product.name, product.price, 1)
  }

  /** The reducer. Whatever the input state, the cached total of the result
      matches its items. */
  function Reduce(state: CartState, action: CartAction): (r: CartState)
    ensures r.total == Total(r.items)
  {
    match action
    case AddItem(product) =>
      if Contains(state.items, product.id) then
        var updated := IncreaseMatching(state.items, product.id);
        CartState(updated, Total(updated))
      else
        var updated := state.items + [NewItem(product)];
        CartState(updated, Total(updated))
    case RemoveItem(id) =>
      var updated := Without(state.items, id);
      CartState(updated, Total(updated))
    case IncreaseQuantity(id) =>
      var updated := IncreaseMatching(state.items, id);
      CartState(updated, Total(updated))
    case DecreaseQuantity(id) =>
      var updated := DecreaseMatching(state.items, id);
      CartState(updated, Total(updated))
    case ClearCart =>
      InitialState
  }

  // ---------------------------------------------------------------------
  // Removing a product

  /** Removal keeps exactly the lines of other products. */
  lemma {:induction false} WithoutMembers(items: seq<CartItem>, id: string)
    ensures forall x :: x in Without(items, id) <==> x in items && x.productId != id
  {
    if items != [] {
      WithoutMembers(items[1..], id);
      assert items == [items[0]] + items[1..];
    }
  }

  /** Removing an absent product leaves the lines as they were. */
  lemma {:induction false} WithoutAbsent(items: seq<CartItem>, id: string)
    requires !Contains(items, id)
    ensures Without(items, id) == items
  {
    if items != [] {
      assert items[0].productId != id;
      assert !Contains(items[1..], id) by {
        forall i | 0 <= i < |items[1..]| ensures items[1..][i].productId != id {
          assert items[1..][i] == items[i + 1];
        }
      }
      WithoutAbsent(items[1..], id);
      assert items == [items[0]] + items[1..];
    }
  }

  /** With one line per product, removal cuts out exactly line k, and the
      other lines keep their order. */
  lemma {:induction false} WithoutPresent(items: seq<CartItem>, id: string, k: nat)
    requires UniqueIds(items)
    requires k < |items| && items[k].productId == id
    ensures Without(items, id) == items[..k] + items[k + 1..]
  {
    if k == 0 {
      assert !Contains(items[1..], id) by {
        forall i | 0 <= i < |items[1..]| ensures items[1..][i].productId != id {
          assert items[1..][i] == items[i + 1];
        }
      }
      WithoutAbsent(items[1..], id);
    } else {
      assert items[0].productId != id;
      WithoutPresent(items[1..], id, k - 1);
      assert items[1..][..k - 1] == items[1..k];
      assert items[1..][k..] == items[k + 1..];
      assert [items[0]] + items[1..k] == items[..k];
    }
  }

  lemma {:induction false} WithoutKeepsUnique(items: seq<CartItem>, id: string)
    requires UniqueIds(items)
    ensures UniqueIds(Without(items, id))
  {
    if items != [] {
      assert UniqueIds(items[1..]) by {
        forall i, j | 0 <= i < j < |items[1..]|
          ensures items[1..][i].productId != items[1..][j].productId
        {
          assert items[1..][i] == items[i + 1] && items[1..][j] == items[j + 1];
        }
      }
      WithoutKeepsUnique(items[1..], id);
      WithoutMembers(items[1..], id);
      if items[0].productId != id {
        var rest := Without(items[1..], id);
        forall j | 0 <= j < |rest| ensures rest[j].productId != items[0].productId {
          assert rest[j] in items[1..];
          var m :| 0 <= m < |items[1..]| && items[1..][m] == rest[j];
          assert items[1..][m] == items[m + 1];
        }
        var r := [items[0]] + rest;
        forall i, j | 0 <= i < j < |r| ensures r[i].productId != r[j].productId {
          if i == 0 {
            assert r[j] == rest[j - 1];
          } else {
            assert r[i] == rest[i - 1] && r[j] == rest[j - 1];
          }
        }
      }
    }
  }

  lemma {:induction false} WithoutKeepsPositive(items: seq<CartItem>, id: string)
    requires AllPositive(items)
    ensures AllPositive(Without(items, id))
  {
    WithoutMembers(items, id);
    var r := Without(items, id);
    forall i | 0 <= i < |r| ensures r[i].quantity >= 1 {
      assert r[i] in items;
    }
  }

  // ---------------------------------------------------------------------
  // Adding a product

  /** Adding a product already in the cart adds one unit to its line and
      changes nothing else: same length, same order, same other lines. */
  lemma AddExisting(state: CartState, product: Product, k: nat)
    requires UniqueIds(state.items)
    requires k < |state.items| && state.items[k].productId == product.id
    ensures Reduce(state, AddItem(product)).items
         == state.items[k := state.items[k].(quantity := state.items[k].quantity + 1)]
  {
    assert Contains(state.items, product.id);
  }

  /** Adding a product not yet in the cart appends one line for it, at the
      end, with quantity 1 and the product's name and price. */
  lemma AddNew(state: CartState, product: Product)
    requires !Contains(state.items, product.id)
    ensures Reduce(state, AddItem(product)).items
         == state.items + [CartItem(product.id, product.name, product.price, 1)]
  {
  }

  /** Adding a product already in the cart raises the total by its unit price. */
  lemma AddExistingTotal(state: CartState, product: Product, k: nat)
    requires Valid(state)
    requires k < |state.items| && state.items[k].productId == product.id
    ensures Reduce(state, AddItem(product)).total == state.total + state.items[k].price
  {
    var item := state.items[k];
    AddExisting(state, product, k);
    TotalUpdate(state.items, k, item.(quantity := item.quantity + 1));
    assert item.price * (item.quantity + 1) == item.price * item.quantity + item.price;
  }

  /** Adding a new product raises the total by its price. */
  lemma AddNewTotal(state: CartState, product: Product)
    requires Valid(state)
    requires !Contains(state.items, product.id)
    ensures Reduce(state, AddItem(product)).total == state.total + product.price
  {
    TotalAppend(state.items, NewItem(product));
  }

  // ---------------------------------------------------------------------
  // Changing a quantity

  /** With one line per product, increasing the quantity of the product on
      line k touches line k only. */
  lemma IncreasePresent(items: seq<CartItem>, k: nat)
    requires UniqueIds(items)
    requires k < |items|
    ensures IncreaseMatching(items, items[k].productId)
         == items[k := items[k].(quantity := items[k].quantity + 1)]
  {
  }

  /** Increasing the quantity of a product in the cart raises the total by its unit price. */
  lemma IncreaseTotal(state: CartState, k: nat)
    requires Valid(state)
    requires k < |state.items|
    ensures Reduce(state, IncreaseQuantity(state.items[k].productId)).total
         == state.total + state.items[k].price
  {
    var item := state.items[k];
    IncreasePresent(state.items, k);
    TotalUpdate(state.items, k, item.(quantity := item.quantity + 1));
    assert item.price * (item.quantity + 1) == item.price * item.quantity + item.price;
  }

  /** Decreasing never takes a line below quantity 1: a line at 1 stays as it
      is, a line above 1 loses exactly one unit. */
  lemma DecreaseFloor(state: CartState, id: string, k: nat)
    requires AllPositive(state.items)
    requires k < |state.items| && state.items[k].productId == id
    ensures var after := Reduce(state, DecreaseQuantity(id)).items[k];
      && after.quantity >= 1
      && (state.items[k].quantity == 1 ==> after == state.items[k])
      && (state.items[k].quantity > 1 ==> after == state.items[k].(quantity := state.items[k].quantity - 1))
  {
  }

  /** With one line per product, decreasing the product on line k touches
      line k only, and only when its quantity is above 1. */
  lemma DecreasePresent(items: seq<CartItem>, k: nat)
    requires UniqueIds(items)
    requires k < |items|
    ensures DecreaseMatching(items, items[k].productId)
         == items[k := if items[k].quantity > 1 then items[k].(quantity := items[k].quantity - 1) else items[k]]
  {
  }

  /** The initial cart is empty and satisfies the cart's invariant. */
  lemma InitialStateValid()
    ensures InitialState.items == [] && InitialState.total == 0 && Valid(InitialState)
  {
  }

  /** An increase followed by a decrease of the same product restores the
      lines, whether or not the product is in the cart. */
  lemma IncreaseThenDecrease(state: CartState, id: string)
    requires AllPositive(state.items)
    ensures Reduce(Reduce(state, IncreaseQuantity(id)), DecreaseQuantity(id)).items == state.items
  {
  }

  /** Increasing or decreasing a product that is not in the cart leaves the lines unchanged. */
  lemma ChangeAbsent(state: CartState, id: string)
    requires !Contains(state.items, id)
    ensures Reduce(state, IncreaseQuantity(id)).items == state.items
    ensures Reduce(state, DecreaseQuantity(id)).items == state.items
  {
    var inc := Reduce(state, IncreaseQuantity(id)).items;
    var dec := Reduce(state, DecreaseQuantity(id)).items;
    forall i | 0 <= i < |state.items| ensures inc[i] == state.items[i] && dec[i] == state.items[i] {
      assert state.items[i].productId != id;
    }
  }

  // ---------------------------------------------------------------------
  // Clearing and the invariant

  /** Clearing yields the empty cart with total 0 from any state. */
  lemma Clear(state: CartState)
    ensures Reduce(state, ClearCart).items == [] && Reduce(state, ClearCart).total == 0
  {
  }

  /** Every action keeps the cart's invariant: unique products, positive
      quantities and a total that matches the lines. */
  lemma ReducePreservesValid(state: CartState, action: CartAction)
    requires Valid(state)
    ensures Valid(Reduce(state, action))
  {
    var r := Reduce(state, action);
    match action
    case AddItem(product) =>
      if !Contains(state.items, product.id) {
        forall i, j | 0 <= i < j < |r.items| ensures r.items[i].productId != r.items[j].productId {
          if j == |state.items| {
            assert r.items[i] == state.items[i];
          }
        }
      }
    case RemoveItem(id) =>
      WithoutKeepsUnique(state.items, id);
      WithoutKeepsPositive(state.items, id);
    case IncreaseQuantity(id) =>
    case DecreaseQuantity(id) =>
    case ClearCart =>
  }
}
