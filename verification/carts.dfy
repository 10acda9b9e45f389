/** The cart store: an ordered collection of carts, each an ordered list of
    line items (a product id and a quantity), held in memory and written back
    in full to one JSON file after every successful change. */
module Carts {

  import opened Outcomes
  import opened JsValues
  import opened Search
  import opened DocumentStore
  import Ids

  /** One line of a cart: a product id, not checked against the product
      store, and how many of it. */
  datatype LineItem = LineItem(id: int, quantity: int)

  datatype Cart = Cart(id: int, products: seq<LineItem>)

  /** The body of a create-cart request. Only its `id` key is ever read;
      `Undefined` when it carries none. */
  datatype NewCart = NewCart(id: JsValue)

  /** The errors the store throws. */
  datatype CartError =
    | IdSupplied               // "Cannot manually specify the 'id' field"
    | CartNotFound(key: JsValue) // "No cart found with id <key>"

  function CartIds(cs: seq<Cart>): seq<int>
  {
    Ids.IdsOf(cs, (c: Cart) => c.id)
  }

  /** The loose-equality test `cart => cart.id == key`. */
  function MatchesKey(key: JsValue): (matches: Cart -> bool)
    ensures forall c :: matches(c) <==> LooseEquals(c.id, key)
  {
    var k := LooseNumber(key);
    (c: Cart) => Finite(c.id as real) == k
  }

  /** The strict-equality test `product => product.id === productId`. */
  function HasProduct(productId: int): LineItem -> bool
  {
    (item: LineItem) => item.id == productId
  }

  /** No product id occurs twice among a cart's line items. */
  predicate UniqueItemIds(items: seq<LineItem>)
  {
    forall i, j :: 0 <= i < j < |items| ==> items[i].id != items[j].id
  }

  /** The cart created for an accepted create request. */
  function NewCartFor(cs: seq<Cart>): Cart
  {
    Cart(Ids.NextId(CartIds(cs)), [])
  }

  /** The line items after adding `quantity` of `productId`: the first line
      for that product has its quantity raised by `quantity` and every other
      line stays as it was, or, when no line has that product, a new line is
      appended. The ids of the existing lines and their order are kept. */
  function AddLineItem(items: seq<LineItem>, productId: int, quantity: int): (r: seq<LineItem>)
    ensures (exists k :: 0 <= k < |items| && items[k].id == productId) ==> |r| == |items|
    ensures (forall k :: 0 <= k < |items| ==> items[k].id != productId) ==>
      r == items + [LineItem(productId, quantity)]
    ensures forall k :: 0 <= k < |items| ==> r[k].id == items[k].id
    ensures forall k :: 0 <= k < |items| && items[k].id != productId ==> r[k] == items[k]
  {
    var j := FindIndex(items, HasProduct(productId));
    if j == -1 then items + [LineItem(productId, quantity)]
    else items[j := items[j].(quantity := items[j].quantity + quantity)]
  }

  /** The total quantity of `productId` over a list of line items: a
      reference for what a cart holds that does not depend on how lines
      are laid out. */
  function QuantityOf(items: seq<LineItem>, productId: int): int
  {
    if items == [] then 0
    else (if items[0].id == productId then items[0].quantity else 0) + QuantityOf(items[1..], productId)
  }

  class CartManager {
    const path: string
    /** The collection, in order. */
    var carts: seq<Cart>
    /** What the file at `path` holds as far as the store knows: the
        collection last written, or `None` when the file was absent or did
        not parse at load time and nothing has been written since. */
    ghost var saved: Option<seq<Cart>>

    /** The file and the collection agree: loading the file again gives
        back the collection the store holds. */
    ghost predicate Synced()
      reads this
    {
      Load(saved) == carts
    }

    /** A store whose load of the file has completed, `stored` being what
        the file held (`None`: absent or unparseable). */
    constructor (path: string, stored: Option<seq<Cart>>)
      ensures this.path == path
      ensures carts == Load(stored) && saved == stored
      ensures Synced()
    {
      this.path := path;
      carts := Load(stored);
      saved := stored;
    }

    /** The id of the next cart: above every cart id present, 1 when empty. */
    function GenerateCartId(): (id: int)
      reads this
      ensures forall i :: 0 <= i < |carts| ==> carts[i].id < id
      ensures |carts| == 0 ==> id == 1
    {
      Ids.NextId(CartIds(carts))
    }

    method AddCart(candidate: NewCart) returns (r: Outcome<CartError>)
      requires Synced()
      modifies this
      ensures Synced()
      ensures Truthy(candidate.id) ==>
        r == Fail(IdSupplied) && carts == old(carts) && saved == old(saved)
      ensures !Truthy(candidate.id) ==>
        r == Pass && carts == old(carts) + [NewCartFor(old(carts))] && saved == Some(carts)
    {
      if Truthy(candidate.id) {
        return Fail(IdSupplied);
      }
      var cart := Cart(GenerateCartId(), []);
      carts := carts + [cart];
      saved := Some(carts);
      r := Pass;
    }

    method GetCartById(key: JsValue) returns (r: Result<Cart, CartError>)
      ensures r.Success? <==> exists i :: 0 <= i < |carts| && LooseEquals(carts[i].id, key)
      ensures r.Success? ==>
        && LooseEquals(r.value.id, key)
        && exists i :: 0 <= i < |carts| && carts[i] == r.value &&
             forall j :: 0 <= j < i ==> !LooseEquals(carts[j].id, key)
      ensures r.Failure? ==> r.error == CartNotFound(key)
    {
      var i := FindIndex(carts, MatchesKey(key));
      if i == -1 {
        return Failure(CartNotFound(key));
      }
      return Success(carts[i]);
    }

    method GetAllCarts() returns (cs: seq<Cart>)
      ensures cs == carts
    {
      cs := carts;
    }

    method AddProductToCart(cartId: JsValue, productId: int, quantity: int) returns (r: Outcome<CartError>)
      requires Synced()
      modifies this
      ensures Synced()
      ensures var i := FindIndex(old(carts), MatchesKey(cartId));
        if i == -1 then
          r == Fail(CartNotFound(cartId)) && carts == old(carts) && saved == old(saved)
        else
          && r == Pass
          && carts == old(carts)[i := old(carts)[i].(products := AddLineItem(old(carts)[i].products, productId, quantity))]
          && saved == Some(carts)
      ensures |carts| == |old(carts)|
      ensures forall k :: 0 <= k < |carts| && UniqueItemIds(old(carts)[k].products) ==>
        UniqueItemIds(carts[k].products)
    {
      var index := FindIndex(carts, MatchesKey(cartId));
      if index == -1 {
        return Fail(CartNotFound(cartId));
      }
      var cart := carts[index];
      var existing := FindIndex(cart.products, HasProduct(productId));
      var items;
      if existing != -1 {
        var line := cart.products[existing];
        items := cart.products[existing := line.(quantity := line.quantity + quantity)];
      } else {
        items := cart.products + [LineItem(productId, quantity)];
      }
      assert items == AddLineItem(cart.products, productId, quantity);
      AddToCartKeepsIdsUnique(carts, index, productId, quantity);
      carts := carts[index := cart.(products := items)];
      saved := Some(carts);
      r := Pass;
    }
  }

  // ---------------------------------------------------------------------
  // Line items

  lemma {:induction false} QuantityOfConcat(a: seq<LineItem>, b: seq<LineItem>, x: int)
    ensures QuantityOf(a + b, x) == QuantityOf(a, x) + QuantityOf(b, x)
  {
    if a == [] {
      assert a + b == b;
    } else {
      assert (a + b)[1..] == a[1..] + b;
      QuantityOfConcat(a[1..], b, x);
    }
  }

  lemma QuantityOfSingle(item: LineItem, x: int)
    ensures QuantityOf([item], x) == if item.id == x then item.quantity else 0
  {
    assert [item][1..] == [];
  }

  /** Adding `quantity` of a product raises the cart's total for that
      product by exactly `quantity` and leaves every other product's total
      as it was. */
  lemma QuantityAfterAdd(items: seq<LineItem>, productId: int, quantity: int, x: int)
    ensures QuantityOf(AddLineItem(items, productId, quantity), x) ==
            QuantityOf(items, x) + (if x == productId then quantity else 0)
  {
    var j := FindIndex(items, HasProduct(productId));
    var added := LineItem(productId, quantity);
    if j == -1 {
      QuantityOfConcat(items, [added], x);
      QuantityOfSingle(added, x);
    } else {
      var old_ := items[j];
      var new_ := old_.(quantity := old_.quantity + quantity);
      assert old_.id == productId;
      assert items == items[..j] + [old_] + items[j + 1..];
      assert items[j := new_] == items[..j] + [new_] + items[j + 1..];
      QuantityOfConcat(items[..j] + [old_], items[j + 1..], x);
      QuantityOfConcat(items[..j], [old_], x);
      QuantityOfConcat(items[..j] + [new_], items[j + 1..], x);
      QuantityOfConcat(items[..j], [new_], x);
      QuantityOfSingle(old_, x);
      QuantityOfSingle(new_, x);
    }
  }

  /** When `j` is the first line for the product, exactly that line gains
      `quantity` and every other line, including any later line for the same
      product, stays as it was. */
  lemma AddLineItemRaisesFirstLine(items: seq<LineItem>, productId: int, quantity: int, j: nat)
    requires j < |items| && items[j].id == productId
    requires forall k :: 0 <= k < j ==> items[k].id != productId
    ensures var r := AddLineItem(items, productId, quantity);
      && |r| == |items|
      && r[j] == LineItem(productId, items[j].quantity + quantity)
      && forall k :: 0 <= k < |items| && k != j ==> r[k] == items[k]
  {
    assert FindIndex(items, HasProduct(productId)) == j;
  }

  /** Adding a product keeps line-item ids unique, and afterwards the
      product has exactly one line. */
  lemma AddLineItemKeepsIdsUnique(items: seq<LineItem>, productId: int, quantity: int)
    requires UniqueItemIds(items)
    ensures var r := AddLineItem(items, productId, quantity);
      && UniqueItemIds(r)
      && exists k :: 0 <= k < |r| && r[k].id == productId
  {
    var r := AddLineItem(items, productId, quantity);
    if forall k :: 0 <= k < |items| ==> items[k].id != productId {
      assert r[|items|].id == productId;
    } else {
      var k :| 0 <= k < |items| && items[k].id == productId;
      assert r[k].id == productId;
    }
  }

  /** Adding a product to one cart of a collection keeps every cart's
      unique line-item ids unique. */
  lemma AddToCartKeepsIdsUnique(cs: seq<Cart>, i: nat, productId: int, quantity: int)
    requires i < |cs|
    ensures var ds := cs[i := cs[i].(products := AddLineItem(cs[i].products, productId, quantity))];
      forall k :: 0 <= k < |ds| && UniqueItemIds(cs[k].products) ==> UniqueItemIds(ds[k].products)
  {
    if UniqueItemIds(cs[i].products) {
      AddLineItemKeepsIdsUnique(cs[i].products, productId, quantity);
    }
  }

  /** Adding a product not yet in the cart twice, with quantities `q1` and
      `q2`, leaves one line for it, at the end, holding `q1 + q2`. */
  lemma AddSameProductTwice(items: seq<LineItem>, productId: int, q1: int, q2: int)
    requires forall k :: 0 <= k < |items| ==> items[k].id != productId
    ensures AddLineItem(AddLineItem(items, productId, q1), productId, q2) ==
            items + [LineItem(productId, q1 + q2)]
  {
    var once := AddLineItem(items, productId, q1);
    assert once == items + [LineItem(productId, q1)];
    assert FindIndex(once, HasProduct(productId)) == |items| by {
      assert forall k :: 0 <= k < |items| ==> once[k] == items[k] && !HasProduct(productId)(once[k]);
      assert HasProduct(productId)(once[|items|]);
    }
  }

  // ---------------------------------------------------------------------
  // Carts

  /** What `cart.id == key` means for each kind of key: a number matches
      that id only; text goes through `Number()`, so the decimal text of `m`
      matches `m` only and blank text matches 0; a boolean matches 1 or 0;
      null and undefined match no cart. */
  lemma MatchesKeyCases(c: Cart, n: int, m: nat, b: bool)
    ensures MatchesKey(Num(n))(c) <==> c.id == n
    ensures MatchesKey(Str(DecimalText(m)))(c) <==> c.id == m
    ensures MatchesKey(Str(""))(c) <==> c.id == 0
    ensures MatchesKey(Bool(b))(c) <==> c.id == (if b then 1 else 0)
    ensures !MatchesKey(Null)(c) && !MatchesKey(Undefined)(c)
  {
    LooseEqualsDecimalText(c.id, m);
  }

  /** A new cart is found under its id given as a number. */
  lemma LookupAfterAddCart(cs: seq<Cart>)
    ensures var c := NewCartFor(cs);
      FindIndex(cs + [c], MatchesKey(Num(c.id))) == |cs|
  {
    var ids := CartIds(cs);
    var n := Ids.NextId(ids);
    var matches := MatchesKey(Num(n));
    forall j | 0 <= j < |cs|
      ensures !matches(cs[j])
    {
      assert ids[j] == cs[j].id && ids[j] < n;
      assert !LooseEquals(cs[j].id, Num(n));
    }
    FindIndexAppend(cs, Cart(n, []), matches);
  }

  /** When no cart id is negative, a new cart is also found under the
      decimal text of its id, the form a route parameter carries. */
  lemma LookupAfterAddCartByText(cs: seq<Cart>)
    requires forall i :: 0 <= i < |cs| ==> cs[i].id >= 0
    ensures var c := NewCartFor(cs);
      c.id >= 1 && FindIndex(cs + [c], MatchesKey(Str(DecimalText(c.id)))) == |cs|
  {
    var c := NewCartFor(cs);
    Ids.NextIdPositive(CartIds(cs));
    var key := Str(DecimalText(c.id));
    forall j | 0 <= j < |cs|
      ensures !MatchesKey(key)(cs[j])
    {
      assert cs[j].id < c.id;
      LooseEqualsDecimalText(cs[j].id, c.id);
    }
    LooseEqualsDecimalText(c.id, c.id);
    FindIndexAppend(cs, c, MatchesKey(key));
  }
}
