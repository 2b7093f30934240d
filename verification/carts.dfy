/** The cart list shared by the results page and the cart page of the frontend
    (frontend/src/components/ResultsPage.tsx and CartPage.tsx): a list of products, each with a
    quantity, and the three expressions both pages build on it: the quantity update (`map`), the
    removal (`filter`) and the subtotal (`reduce`), and the coupon codes both pages recognise. */
module Carts {
  import opened Wrappers
  import opened Js
  import opened Catalogue
  import opened Seqs

  /** `CartItem`: a product with the quantity in the cart. */
  datatype CartItem = CartItem(product: Product, quantity: int)

  /** The ids of the items, in cart order. */
  function Ids(cart: seq<CartItem>): (ids: seq<string>)
    ensures |ids| == |cart|
    ensures forall i :: 0 <= i < |cart| ==> ids[i] == cart[i].product.id
  {
    if cart == [] then [] else [cart[0].product.id] + Ids(cart[1..])
  }

  /** Position of the first item with id `id`, or `|cart|` when there is none. */
  function IndexOfId(cart: seq<CartItem>, id: string): (i: nat)
    ensures i <= |cart|
    ensures i < |cart| ==> cart[i].product.id == id
    ensures forall j :: 0 <= j < i ==> cart[j].product.id != id
    ensures i == |cart| <==> id !in Ids(cart)
  {
    if cart == [] then 0
    else if cart[0].product.id == id then 0
    else 1 + IndexOfId(cart[1..], id)
  }

  /** No two items share an id. */
  predicate UniqueIds(cart: seq<CartItem>) {
    forall i, j :: 0 <= i < j < |cart| ==> cart[i].product.id != cart[j].product.id
  }

  /** `cart.map(item => item.id === id ? { ...item, quantity: q } : item)`: every item with that id
      takes quantity `q`; every other item, the length and the order stay. */
  function WithQuantity(cart: seq<CartItem>, id: string, q: int): (r: seq<CartItem>)
    ensures |r| == |cart|
    ensures forall i :: 0 <= i < |cart| ==> r[i].product == cart[i].product
    ensures forall i :: 0 <= i < |cart| ==> r[i].quantity == if cart[i].product.id == id then q else cart[i].quantity
  {
    if cart == [] then []
    else
      var head := if cart[0].product.id == id then cart[0].(quantity := q) else cart[0];
      [head] + WithQuantity(cart[1..], id, q)
  }

  /** `cart.filter(item => item.id !== id)`. */
  function Without(cart: seq<CartItem>, id: string): (r: seq<CartItem>)
    ensures |r| <= |cart|
    ensures forall x :: x in r <==> x in cart && x.product.id != id
  {
    if cart == [] then []
    else if cart[0].product.id == id then Without(cart[1..], id)
    else [cart[0]] + Without(cart[1..], id)
  }

  /** `cart.reduce((total, item) => total + item.price * item.quantity, 0)`, in cents. */
  function Subtotal(cart: seq<CartItem>): int {
    if cart == [] then 0
    else Subtotal(cart[..|cart| - 1]) + cart[|cart| - 1].product.price * cart[|cart| - 1].quantity
  }

  /** The filter keeps the order: filtering a concatenation filters each part. */
  lemma {:induction false} WithoutAppend(a: seq<CartItem>, b: seq<CartItem>, id: string)
    ensures Without(a + b, id) == Without(a, id) + Without(b, id)
  {
    if a != [] {
      assert (a + b)[0] == a[0] && (a + b)[1..] == a[1..] + b;
      WithoutAppend(a[1..], b, id);
      if a[0].product.id != id {
        AppendAssoc([a[0]], Without(a[1..], id), Without(b, id));
      }
    } else {
      assert a + b == b;
    }
  }

  /** Removing drops nothing when no item has the id, and something otherwise. */
  lemma {:induction false} WithoutLength(cart: seq<CartItem>, id: string)
    ensures |Without(cart, id)| == |cart| <==> id !in Ids(cart)
  {
    if cart != [] {
      WithoutLength(cart[1..], id);
      assert Ids(cart) == [cart[0].product.id] + Ids(cart[1..]);
    }
  }

  /** Removing twice is removing once. */
  lemma {:induction false} WithoutIdempotent(cart: seq<CartItem>, id: string)
    ensures Without(Without(cart, id), id) == Without(cart, id)
  {
    if cart != [] {
      WithoutIdempotent(cart[1..], id);
      var rest := Without(cart[1..], id);
      assert ([cart[0]] + rest)[1..] == rest;
    }
  }

  /** The subtotal of a concatenation is the sum of the subtotals. */
  lemma {:induction false} SubtotalAppend(a: seq<CartItem>, b: seq<CartItem>)
    ensures Subtotal(a + b) == Subtotal(a) + Subtotal(b)
    decreases |b|
  {
    if b != [] {
      var c := a + b;
      assert c[..|c| - 1] == a + b[..|b| - 1];
      SubtotalAppend(a, b[..|b| - 1]);
    } else {
      assert a + b == a;
    }
  }

  /** The subtotal read from the front: the first item's amount plus the rest's. */
  lemma SubtotalCons(cart: seq<CartItem>)
    requires cart != []
    ensures Subtotal(cart) == cart[0].product.price * cart[0].quantity + Subtotal(cart[1..])
  {
    assert cart == [cart[0]] + cart[1..];
    SubtotalAppend([cart[0]], cart[1..]);
    assert [cart[0]][..0] == [];
  }

  /** Removing an id that is in no item leaves the subtotal alone; removing takes off exactly
      the amounts of the items with that id. */
  lemma {:induction false} SubtotalWithout(cart: seq<CartItem>, id: string)
    ensures Subtotal(cart) == Subtotal(Without(cart, id)) + Amount(cart, id)
  {
    if cart != [] {
      SubtotalWithout(cart[1..], id);
      SubtotalCons(cart);
      if cart[0].product.id != id {
        SubtotalCons(Without(cart, id));
      }
    }
  }

  /** What the items with id `id` add to the subtotal. */
  function Amount(cart: seq<CartItem>, id: string): int {
    if cart == [] then 0
    else (if cart[0].product.id == id then cart[0].product.price * cart[0].quantity else 0) + Amount(cart[1..], id)
  }

  /** Setting the quantity of the items with id `id` changes the subtotal by what those items
      add at the new quantity instead of the old. */
  lemma {:induction false} SubtotalWithQuantity(cart: seq<CartItem>, id: string, q: int)
    ensures Subtotal(WithQuantity(cart, id, q)) == Subtotal(cart) - Amount(cart, id) + Amount(WithQuantity(cart, id, q), id)
  {
    if cart != [] {
      var r := WithQuantity(cart, id, q);
      assert r[1..] == WithQuantity(cart[1..], id, q);
      SubtotalWithQuantity(cart[1..], id, q);
      SubtotalCons(cart);
      SubtotalCons(r);
    }
  }

  /** With unique ids, the items with id `id` are the one at its position. */
  lemma {:induction false} AmountOfUnique(cart: seq<CartItem>, i: nat)
    requires UniqueIds(cart) && i < |cart|
    ensures Amount(cart, cart[i].product.id) == cart[i].product.price * cart[i].quantity
  {
    if i == 0 {
      AmountAbsent(cart[1..], cart[0].product.id);
    } else {
      AmountOfUnique(cart[1..], i - 1);
    }
  }

  /** Items without the id add nothing. */
  lemma {:induction false} AmountAbsent(cart: seq<CartItem>, id: string)
    requires forall i :: 0 <= i < |cart| ==> cart[i].product.id != id
    ensures Amount(cart, id) == 0
  {
    if cart != [] {
      AmountAbsent(cart[1..], id);
    }
  }

  /** The quantity update never changes the ids. */
  lemma WithQuantityIds(cart: seq<CartItem>, id: string, q: int)
    ensures Ids(WithQuantity(cart, id, q)) == Ids(cart)
  {
  }

  /** The two codes both pages' `applyCoupon` knows. */
  datatype Coupon = Save10 | Welcome

  /** The code as both pages read it: lowercased, but not trimmed. */
  function CouponOf(code: string): (c: Option<Coupon>)
    ensures c == Some(Save10) <==> Lower(code) == "save10"
    ensures c == Some(Welcome) <==> Lower(code) == "welcome"
  {
    var lowered := Lower(code);
    if lowered == "save10" then Some(Save10)
    else if lowered == "welcome" then Some(Welcome)
    else None
  }

  /** The code is not trimmed: with whitespace in front even a known code is refused. */
  lemma PaddedCodeRefused(code: string)
    requires code != [] && IsSpace(code[0])
    ensures CouponOf(code) == None
  {
    assert Lower(code)[0] == code[0];
    assert "save10"[0] == 's' && "welcome"[0] == 'w';
  }

  /** The case of the code does not matter. */
  lemma {:induction false} CouponIgnoresCase(code: string, other: string)
    requires |code| == |other| && forall i :: 0 <= i < |code| ==> LowerChar(code[i]) == LowerChar(other[i])
    ensures CouponOf(code) == CouponOf(other)
  {
    assert Lower(code) == Lower(other);
  }

  /** "SAVE10" in capitals is the 10% coupon. */
  lemma CapitalSave10()
    ensures CouponOf("SAVE10") == Some(Save10)
  {
    assert Lower("SAVE10") == "save10";
  }
}
