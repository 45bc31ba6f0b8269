/** The optimistic shopping cart: the reducer that computes the projected
    cart for an add, remove, quantity change or clear, the totals derived
    from the items, and the updaters that compute the confirmed cart once the
    simulated server call has succeeded. */
module ShoppingCart {
  import opened Seqs

  datatype Product = Product(id: int, name: string, price: int, image: string, category: string)

  /** A product in the cart: the product's fields, a quantity and the
      identifier of the cart line. */
  datatype CartItem = CartItem(
    id: int, name: string, price: int, image: string, category: string,
    quantity: int, cartId: string)

  datatype CartState = CartState(items: seq<CartItem>, total: int, itemCount: int)

  datatype Totals = Totals(total: int, itemCount: int)

  datatype CartAction =
    | Add(product: Product)
    | Remove(cartId: string)
    | UpdateQuantity(cartId: string, quantity: int)
    | Clear

  const EmptyCart := CartState([], 0, 0)

  /** `{ ...product, quantity, cartId }`. */
  function ItemOf(p: Product, quantity: int, cartId: string): CartItem {
    CartItem(p.id, p.name, p.price, p.image, p.category, quantity, cartId)
  }

  /** What `addToCartAPI` resolves with: the product, quantity 1 and the
      server's cart identifier (generated from the clock and a random number,
      here a parameter). */
  function ServerItem(p: Product, serverCartId: string): CartItem {
    ItemOf(p, 1, serverCartId)
  }

  // -----------------------------------------------------------------------
  // Totals

  /** Sum of price times quantity over the items. */
  function SumTotal(items: seq<CartItem>): int {
    if items == [] then 0 else items[0].price * items[0].quantity + SumTotal(items[1..])
  }

  /** Sum of the quantities of the items. */
  function SumCount(items: seq<CartItem>): int {
    if items == [] then 0 else items[0].quantity + SumCount(items[1..])
  }

  /** `items.reduce((sum, item) => sum + item.price * item.quantity, acc)`. */
  function FoldTotal(items: seq<CartItem>, acc: int): int {
    if items == [] then acc else FoldTotal(items[1..], acc + items[0].price * items[0].quantity)
  }

  /** `items.reduce((sum, item) => sum + item.quantity, acc)`. */
  function FoldCount(items: seq<CartItem>, acc: int): int {
    if items == [] then acc else FoldCount(items[1..], acc + items[0].quantity)
  }

  lemma {:induction false} FoldTotalIsSum(items: seq<CartItem>, acc: int)
    ensures FoldTotal(items, acc) == acc + SumTotal(items)
  {
    if items != [] {
      FoldTotalIsSum(items[1..], acc + items[0].price * items[0].quantity);
    }
  }

  lemma {:induction false} FoldCountIsSum(items: seq<CartItem>, acc: int)
    ensures FoldCount(items, acc) == acc + SumCount(items)
  {
    if items != [] {
      FoldCountIsSum(items[1..], acc + items[0].quantity);
    }
  }

  /** `calculateCartTotals`: the total is the sum of price times quantity and
      the item count the sum of quantities; an empty cart gives (0, 0). */
  function CalculateCartTotals(items: seq<CartItem>): (r: Totals)
    ensures r.total == SumTotal(items) && r.itemCount == SumCount(items)
    ensures items == [] ==> r == Totals(0, 0)
  {
    FoldTotalIsSum(items, 0);
    FoldCountIsSum(items, 0);
    Totals(FoldTotal(items, 0), FoldCount(items, 0))
  }

  /** The derived fields of a cart agree with its items. */
  predicate TotalsConsistent(st: CartState) {
    st.total == SumTotal(st.items) && st.itemCount == SumCount(st.items)
  }

  /** `{ items, ...calculateCartTotals(items) }`. */
  function WithTotals(items: seq<CartItem>): (r: CartState)
    ensures r.items == items && TotalsConsistent(r)
  {
    var t := CalculateCartTotals(items);
    CartState(items, t.total, t.itemCount)
  }

  lemma {:induction false} SumAppend(a: seq<CartItem>, b: seq<CartItem>)
    ensures SumTotal(a + b) == SumTotal(a) + SumTotal(b)
    ensures SumCount(a + b) == SumCount(a) + SumCount(b)
  {
    if a == [] {
      assert a + b == b;
    } else {
      assert (a + b)[1..] == a[1..] + b;
      SumAppend(a[1..], b);
    }
  }

  lemma {:induction false} SumUpdate(items: seq<CartItem>, i: int, x: CartItem)
    requires 0 <= i < |items|
    ensures SumTotal(items[i := x]) == SumTotal(items) - items[i].price * items[i].quantity + x.price * x.quantity
    ensures SumCount(items[i := x]) == SumCount(items) - items[i].quantity + x.quantity
  {
    if i > 0 {
      assert items[i := x][1..] == items[1..][i - 1 := x];
      SumUpdate(items[1..], i - 1, x);
    }
  }

  // -----------------------------------------------------------------------
  // Looking up a product

  /** `items.findIndex(item => item.id === id)`: the first position holding
      the product, or -1 when there is none. */
  function FindIndex(items: seq<CartItem>, id: int): (r: int)
    ensures -1 <= r < |items|
    ensures r >= 0 ==> items[r].id == id && forall j :: 0 <= j < r ==> items[j].id != id
    ensures r == -1 <==> forall j :: 0 <= j < |items| ==> items[j].id != id
  {
    if items == [] then -1
    else if items[0].id == id then 0
    else
      var k := FindIndex(items[1..], id);
      if k < 0 then -1 else k + 1
  }

  // -----------------------------------------------------------------------
  // The item lists each action produces

  /** The add branch: raise the quantity of the first line holding the
      product, or append a new line with quantity 1 and the given cart id. */
  function AddedItems(items: seq<CartItem>, p: Product, newCartId: string): seq<CartItem> {
    var i := FindIndex(items, p.id);
    if i >= 0 then items[i := items[i].(quantity := items[i].quantity + 1)]
    else items + [ItemOf(p, 1, newCartId)]
  }

  function NotCartId(cartId: string): CartItem -> bool {
    (x: CartItem) => x.cartId != cartId
  }

  function HasPositiveQuantity(): CartItem -> bool {
    (x: CartItem) => x.quantity > 0
  }

  /** `items.filter(item => item.cartId !== cartId)`. */
  function RemovedItems(items: seq<CartItem>, cartId: string): seq<CartItem> {
    Filter(items, NotCartId(cartId))
  }

  function Max(a: int, b: int): int {
    if a >= b then a else b
  }

  /** `items.map(item => item.cartId === cartId ? { ...item, quantity: max(0, q) } : item)`. */
  function SetQuantity(items: seq<CartItem>, cartId: string, q: int): (r: seq<CartItem>)
    ensures |r| == |items|
  {
    seq(|items|, i requires 0 <= i < |items| =>
      if items[i].cartId == cartId then items[i].(quantity := Max(0, q)) else items[i])
  }

  /** The quantity branch: set the quantity, then drop lines whose quantity
      is not positive. */
  function UpdatedItems(items: seq<CartItem>, cartId: string, q: int): seq<CartItem> {
    Filter(SetQuantity(items, cartId, q), HasPositiveQuantity())
  }

  // -----------------------------------------------------------------------
  // The reducer and the confirmed-state updaters

  /** `optimisticCartReducer`; `optimisticId` stands for the placeholder cart
      id the source builds from the clock and a random number. Every state it
      returns has totals that agree with its items. */
  function Reduce(state: CartState, action: CartAction, optimisticId: string): (r: CartState)
    ensures TotalsConsistent(r)
  {
    match action
    case Add(p) => WithTotals(AddedItems(state.items, p, optimisticId))
    case Remove(c) => WithTotals(RemovedItems(state.items, c))
    case UpdateQuantity(c, q) => WithTotals(UpdatedItems(state.items, c, q))
    case Clear => WithTotals([])
  }

  /** The updater `addToCart` passes to `setActualCart` after the server
      answered with `ServerItem(p, serverCartId)`: an existing line gets its
      quantity raised and the server's cart id; otherwise the server's item is
      appended. Either way one more unit is in the cart. */
  function ConfirmAdd(prev: CartState, p: Product, serverCartId: string): (r: CartState)
    ensures TotalsConsistent(r)
    ensures |r.items| == |prev.items| + (if HasProduct(prev.items, p.id) then 0 else 1)
    ensures r.itemCount == SumCount(prev.items) + 1
  {
    var items := ConfirmedAddItems(prev.items, p, serverCartId);
    var i := FindIndex(prev.items, p.id);
    if i >= 0 then
      SumUpdate(prev.items, i, items[i]);
      WithTotals(items)
    else
      SumAppend(prev.items, [ServerItem(p, serverCartId)]);
      WithTotals(items)
  }

  function ConfirmedAddItems(items: seq<CartItem>, p: Product, serverCartId: string): seq<CartItem> {
    var item := ServerItem(p, serverCartId);
    var i := FindIndex(items, p.id);
    if i >= 0 then items[i := items[i].(quantity := items[i].quantity + 1, cartId := item.cartId)]
    else items + [item]
  }

  /** The `map` of the `updateQuantity` updater: the lines with the cart id
      get `Math.max(0, newQuantity)`. */
  function ConfirmedQuantities(items: seq<CartItem>, cartId: string, newQuantity: int): seq<CartItem> {
    seq(|items|, i requires 0 <= i < |items| =>
      var item := items[i];
      if item.cartId == cartId then item.(quantity := if newQuantity > 0 then newQuantity else 0) else item)
  }

  /** The updater `updateQuantity` passes to `setActualCart`: the new
      quantity, then only lines with a positive quantity. */
  function ConfirmUpdateQuantity(prev: CartState, cartId: string, newQuantity: int): (r: CartState)
    ensures TotalsConsistent(r)
    ensures forall x :: x in r.items ==> x.quantity > 0
  {
    WithTotals(Filter(ConfirmedQuantities(prev.items, cartId, newQuantity), (item: CartItem) => item.quantity > 0))
  }

  /** The updater `removeFromCart` passes to `setActualCart`. */
  function ConfirmRemove(prev: CartState, cartId: string): (r: CartState)
    ensures TotalsConsistent(r)
    ensures forall x :: x in r.items <==> x in prev.items && x.cartId != cartId
  {
    WithTotals(Filter(prev.items, (item: CartItem) => item.cartId != cartId))
  }

  // -----------------------------------------------------------------------
  // The imperative renderings of the add branch

  /** The reducer as the source writes it: `newItems` is filled per case, and
      the add branch copies the array and assigns one element of the copy. */
  method OptimisticCartReducer(state: CartState, action: CartAction, optimisticId: string)
    returns (r: CartState)
    ensures r == Reduce(state, action, optimisticId)
  {
    var newItems: seq<CartItem>;
    match action {
      case Add(p) =>
        var i := FindIndex(state.items, p.id);
        if i >= 0 {
          var copy := new CartItem[|state.items|](j requires 0 <= j < |state.items| => state.items[j]);
          copy[i] := copy[i].(quantity := copy[i].quantity + 1);
          newItems := copy[..];
        } else {
          newItems := state.items + [ItemOf(p, 1, optimisticId)];
        }
        assert newItems == AddedItems(state.items, p, optimisticId);
      case Remove(c) =>
        newItems := RemovedItems(state.items, c);
      case UpdateQuantity(c, q) =>
        newItems := UpdatedItems(state.items, c, q);
      case Clear =>
        newItems := [];
    }
    var totals := CalculateCartTotals(newItems);
    r := CartState(newItems, totals.total, totals.itemCount);
  }

  /** The add updater as the source writes it: copy, then overwrite the
      existing line's quantity and cart id in the copy. */
  method AddToCartUpdater(prev: CartState, p: Product, serverCartId: string) returns (r: CartState)
    ensures r == ConfirmAdd(prev, p, serverCartId)
  {
    var cartItem := ServerItem(p, serverCartId);
    var i := FindIndex(prev.items, p.id);
    var newItems: seq<CartItem>;
    if i >= 0 {
      var copy := new CartItem[|prev.items|](j requires 0 <= j < |prev.items| => prev.items[j]);
      copy[i] := copy[i].(quantity := copy[i].quantity + 1, cartId := cartItem.cartId);
      newItems := copy[..];
    } else {
      newItems := prev.items + [cartItem];
    }
    assert newItems == ConfirmedAddItems(prev.items, p, serverCartId);
    var totals := CalculateCartTotals(newItems);
    r := CartState(newItems, totals.total, totals.itemCount);
  }

  // -----------------------------------------------------------------------
  // Per-action properties of the reducer

  predicate HasProduct(items: seq<CartItem>, id: int) {
    exists j :: 0 <= j < |items| && items[j].id == id
  }

  /** Adding a product already in the cart keeps the length, raises the
      quantity of its (first) line by one, and leaves every other line and
      every other field alone; the item count rises by one and the total by
      the price. */
  lemma AddExisting(state: CartState, p: Product, optimisticId: string)
    requires HasProduct(state.items, p.id)
    ensures var r := Reduce(state, Add(p), optimisticId);
            var i := FindIndex(state.items, p.id);
            && 0 <= i < |state.items| && state.items[i].id == p.id
            && |r.items| == |state.items|
            && r.items[i] == state.items[i].(quantity := state.items[i].quantity + 1)
            && (forall j :: 0 <= j < |state.items| && j != i ==> r.items[j] == state.items[j])
            && r.itemCount == SumCount(state.items) + 1
            && r.total == SumTotal(state.items) + state.items[i].price
  {
    var i := FindIndex(state.items, p.id);
    SumUpdate(state.items, i, state.items[i].(quantity := state.items[i].quantity + 1));
  }

  /** Adding a product not in the cart appends one line with quantity 1 and
      the placeholder id, after the earlier lines in their order; the item
      count rises by one and the total by the price. */
  lemma AddNew(state: CartState, p: Product, optimisticId: string)
    requires !HasProduct(state.items, p.id)
    ensures var r := Reduce(state, Add(p), optimisticId);
            && r.items == state.items + [ItemOf(p, 1, optimisticId)]
            && r.itemCount == SumCount(state.items) + 1
            && r.total == SumTotal(state.items) + p.price
  {
    var items := state.items + [ItemOf(p, 1, optimisticId)];
    SumAppend(state.items, [ItemOf(p, 1, optimisticId)]);
  }

  /** Removing a cart id leaves no line with that id, keeps every other line
      (the same number of them, in their order), and changes nothing when no
      line has that id. */
  lemma RemoveSpec(state: CartState, cartId: string, optimisticId: string)
    ensures var r := Reduce(state, Remove(cartId), optimisticId);
            && (forall x :: x in r.items ==> x.cartId != cartId)
            && (forall x :: x in state.items && x.cartId != cartId ==> x in r.items)
            && IsSubsequence(r.items, state.items)
            && |r.items| == CountWhere(state.items, NotCartId(cartId))
            && ((forall x :: x in state.items ==> x.cartId != cartId) ==> r.items == state.items)
  {
    FilterFacts(state.items, NotCartId(cartId));
    if forall x :: x in state.items ==> x.cartId != cartId {
      FilterAll(state.items, NotCartId(cartId));
    }
  }

  /** Changing a quantity sets the target lines' quantity to `max(0, q)` and
      keeps only lines with a positive quantity: a quantity of zero or less
      removes the target, other lines stay as they were and in their order. */
  lemma UpdateQuantitySpec(state: CartState, cartId: string, q: int, optimisticId: string)
    ensures var r := Reduce(state, UpdateQuantity(cartId, q), optimisticId);
            && (forall x :: x in r.items ==> x.quantity > 0)
            && (q <= 0 ==> forall x :: x in r.items ==> x.cartId != cartId)
            && (forall x :: x in r.items && x.cartId == cartId ==> x.quantity == q)
            && (forall x :: x in r.items && x.cartId != cartId ==> x in state.items)
            && (forall x :: x in state.items && x.cartId != cartId && x.quantity > 0 ==> x in r.items)
            && (q > 0 ==> forall x :: x in state.items && x.cartId == cartId ==> x.(quantity := q) in r.items)
            && IsSubsequence(r.items, SetQuantity(state.items, cartId, q))
            && |r.items| == CountWhere(SetQuantity(state.items, cartId, q), HasPositiveQuantity())
  {
    var set_ := SetQuantity(state.items, cartId, q);
    FilterFacts(set_, HasPositiveQuantity());
    forall x | x in state.items && x.cartId != cartId
      ensures x in set_
    {
      var j :| 0 <= j < |state.items| && state.items[j] == x;
      assert set_[j] == x;
    }
    forall x | x in state.items && x.cartId == cartId && q > 0
      ensures x.(quantity := q) in set_
    {
      var j :| 0 <= j < |state.items| && state.items[j] == x;
      assert set_[j] == x.(quantity := q);
    }
    forall x | x in set_
      ensures x.cartId == cartId ==> x.quantity == Max(0, q)
      ensures x.cartId != cartId ==> x in state.items
    {
      var j :| 0 <= j < |set_| && set_[j] == x;
    }
  }

  /** Clearing empties the cart and zeroes both totals. */
  lemma ClearSpec(state: CartState, optimisticId: string)
    ensures Reduce(state, Clear, optimisticId) == EmptyCart
  {
  }

  // -----------------------------------------------------------------------
  // The cart invariant

  predicate AllPositive(items: seq<CartItem>) {
    forall x :: x in items ==> x.quantity > 0
  }

  /** No product appears on two lines. */
  predicate DistinctIds(items: seq<CartItem>) {
    forall i, j :: 0 <= i < j < |items| ==> items[i].id != items[j].id
  }

  /** What every cart the page can show satisfies: totals agree with the
      items, every quantity is positive and each product has one line. */
  predicate ValidCart(st: CartState) {
    TotalsConsistent(st) && AllPositive(st.items) && DistinctIds(st.items)
  }

  lemma {:induction false} FilterKeepsDistinct(s: seq<CartItem>, p: CartItem -> bool)
    requires DistinctIds(s)
    ensures DistinctIds(Filter(s, p))
  {
    if s != [] {
      assert DistinctIds(s[1..]) by {
        forall i, j | 0 <= i < j < |s| - 1 ensures s[1..][i].id != s[1..][j].id {
          assert s[1..][i] == s[i + 1] && s[1..][j] == s[j + 1];
        }
      }
      FilterKeepsDistinct(s[1..], p);
      var rest := Filter(s[1..], p);
      if p(s[0]) {
        var r := Filter(s, p);
        assert r == [s[0]] + rest;
        forall k | 0 <= k < |rest| ensures rest[k].id != s[0].id {
          assert rest[k] in s[1..];
          var m :| 0 <= m < |s[1..]| && s[1..][m] == rest[k];
          assert s[m + 1] == rest[k];
        }
        forall i, j | 0 <= i < j < |r| ensures r[i].id != r[j].id {
          if i == 0 {
            assert r[j] == rest[j - 1];
          } else {
            assert r[i] == rest[i - 1] && r[j] == rest[j - 1];
          }
        }
      }
    }
  }

  lemma AddedItemsValid(items: seq<CartItem>, p: Product, newCartId: string, bumpedId: string)
    requires AllPositive(items) && DistinctIds(items)
    ensures var i := FindIndex(items, p.id);
            var r := if i >= 0 then items[i := items[i].(quantity := items[i].quantity + 1, cartId := bumpedId)]
                     else items + [ItemOf(p, 1, newCartId)];
            AllPositive(r) && DistinctIds(r)
  {
    var i := FindIndex(items, p.id);
    if i >= 0 {
      var r := items[i := items[i].(quantity := items[i].quantity + 1, cartId := bumpedId)];
      assert items[i] in items;
      forall x | x in r ensures x.quantity > 0 {
        var j :| 0 <= j < |r| && r[j] == x;
        if j != i { assert items[j] in items; }
      }
    } else {
      var r := items + [ItemOf(p, 1, newCartId)];
      forall x | x in r ensures x.quantity > 0 {
        var j :| 0 <= j < |r| && r[j] == x;
        if j < |items| { assert items[j] in items; }
      }
    }
  }

  lemma UpdatedItemsValid(items: seq<CartItem>, cartId: string, q: int)
    requires DistinctIds(items)
    ensures AllPositive(UpdatedItems(items, cartId, q)) && DistinctIds(UpdatedItems(items, cartId, q))
  {
    var s := SetQuantity(items, cartId, q);
    assert DistinctIds(s) by {
      forall i, j | 0 <= i < j < |s| ensures s[i].id != s[j].id {
        assert s[i].id == items[i].id && s[j].id == items[j].id;
      }
    }
    FilterKeepsDistinct(s, HasPositiveQuantity());
  }

  /** The reducer keeps the cart invariant. */
  lemma ReducePreservesValid(state: CartState, action: CartAction, optimisticId: string)
    requires ValidCart(state)
    ensures ValidCart(Reduce(state, action, optimisticId))
  {
    match action
    case Add(p) =>
      AddedItemsValid(state.items, p, optimisticId, "");
      var i := FindIndex(state.items, p.id);
      if i >= 0 {
        var bumped := state.items[i].(quantity := state.items[i].quantity + 1);
        assert bumped == state.items[i].(quantity := state.items[i].quantity + 1, cartId := state.items[i].cartId);
        AddedItemsValid(state.items, p, optimisticId, state.items[i].cartId);
      }
    case Remove(c) =>
      FilterKeepsDistinct(state.items, NotCartId(c));
    case UpdateQuantity(c, q) =>
      UpdatedItemsValid(state.items, c, q);
    case Clear =>
  }

  /** The confirmed-state updaters keep the cart invariant too. */
  lemma ConfirmPreservesValid(prev: CartState, p: Product, serverCartId: string, cartId: string, q: int)
    requires ValidCart(prev)
    ensures ValidCart(ConfirmAdd(prev, p, serverCartId))
    ensures ValidCart(ConfirmUpdateQuantity(prev, cartId, q))
    ensures ValidCart(ConfirmRemove(prev, cartId))
  {
    AddedItemsValid(prev.items, p, serverCartId, serverCartId);
    ConfirmUpdateAndRemoveAgree(prev, cartId, q, "");
    ReducePreservesValid(prev, UpdateQuantity(cartId, q), "");
    ReducePreservesValid(prev, Remove(cartId), "");
  }

  // -----------------------------------------------------------------------
  // The projection agrees with the confirmation

  /** Once the server confirms an add, the confirmed cart has the same lines
      as the projected one, line for line, except that a cart id may be the
      server's instead of the placeholder or the old one. */
  lemma ConfirmAddAgrees(prev: CartState, p: Product, optimisticId: string, serverCartId: string)
    ensures var c := ConfirmAdd(prev, p, serverCartId).items;
            var o := Reduce(prev, Add(p), optimisticId).items;
            && |c| == |o|
            && (forall i :: 0 <= i < |c| ==> c[i].(cartId := o[i].cartId) == o[i])
            && (forall i :: 0 <= i < |c| ==> c[i].cartId == o[i].cartId || c[i].cartId == serverCartId)
  {
  }

  /** An add of a product already in the cart: the confirmed line carries
      the server's cart id, which the projected line does not get. */
  lemma ConfirmAddExistingTakesServerId(prev: CartState, p: Product, optimisticId: string, serverCartId: string)
    requires HasProduct(prev.items, p.id)
    ensures var i := FindIndex(prev.items, p.id);
            && 0 <= i < |prev.items|
            && ConfirmAdd(prev, p, serverCartId).items[i].cartId == serverCartId
            && Reduce(prev, Add(p), optimisticId).items[i].cartId == prev.items[i].cartId
  {
  }

  /** The quantity and remove updaters compute exactly the projected cart. */
  lemma ConfirmUpdateAndRemoveAgree(prev: CartState, cartId: string, q: int, optimisticId: string)
    ensures ConfirmUpdateQuantity(prev, cartId, q) == Reduce(prev, UpdateQuantity(cartId, q), optimisticId)
    ensures ConfirmRemove(prev, cartId) == Reduce(prev, Remove(cartId), optimisticId)
  {
    assert ConfirmedQuantities(prev.items, cartId, q) == SetQuantity(prev.items, cartId, q);
    FilterSameTest(SetQuantity(prev.items, cartId, q), (item: CartItem) => item.quantity > 0, HasPositiveQuantity());
    FilterSameTest(prev.items, (item: CartItem) => item.cartId != cartId, NotCartId(cartId));
  }
}
