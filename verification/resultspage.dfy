/** The results page of the frontend (frontend/src/components/ResultsPage.tsx): the search
    results read back from storage, the product selected in each category, the cart, and the
    handlers that select, add, update, remove and check out. Every handler reads the state of
    the render it was created in. */
module ResultsPage {
  import opened Wrappers
  import opened Js
  import opened Assoc
  import opened Catalogue
  import opened Carts

  /** The selection the page starts with once `results` is read back: each category with at
      least one product selects its first product's id; the others select nothing. */
  function Initial(results: Dict<seq<Product>>): (sel: Dict<string>)
    ensures forall k :: Get(sel, k) == match Get(results, k)
                                        case Some(ps) => if ps != [] then Some(ps[0].id) else None
                                        case None => None
  {
    if results == [] then []
    else
      var init: Dict<seq<Product>> := results[..|results| - 1];
      var last := results[|results| - 1];
      forall k ensures Get(results, k) == if k in Keys(init) then Get(init, k) else if k == last.0 then Some(last.1) else None {
        GetLast(results, k);
      }
      assert last.0 !in Keys(init) by { GetLast(results, last.0); }
      var d := Initial(init);
      if |last.1| > 0 then Put(d, last.0, last.1[0].id) else d
  }

  /** The effect that fills `initialSelections`: `Object.keys(results).forEach(...)`. */
  method InitialSelections(results: Dict<seq<Product>>) returns (initialSelections: Dict<string>)
    ensures initialSelections == Initial(results)
  {
    initialSelections := [];
    var names := Keys(results);
    var i := 0;
    while i < |names|
      invariant 0 <= i <= |names|
      invariant initialSelections == Initial(results[..i])
    {
      var productName := names[i];
      GetAt(results, i);
      var products := Get(results, productName).value;
      InitialStep(results, i);
      if |products| > 0 {
        initialSelections := Put(initialSelections, productName, products[0].id);
      }
      i := i + 1;
    }
    assert results[..i] == results;
  }

  /** Reading one more category. */
  lemma InitialStep(results: Dict<seq<Product>>, i: nat)
    requires i < |results|
    ensures Initial(results[..i + 1]) ==
      if |results[i].1| > 0 then Put(Initial(results[..i]), results[i].0, results[i].1[0].id) else Initial(results[..i])
  {
    assert results[..i + 1][..i] == results[..i] && results[..i + 1][i] == results[i];
  }

  /** Position of the first product with id `id`, or `|products|`. */
  function FindById(products: seq<Product>, id: string): (i: nat)
    ensures i <= |products|
    ensures i < |products| ==> products[i].id == id
    ensures forall j :: 0 <= j < i ==> products[j].id != id
  {
    if products == [] then 0
    else if products[0].id == id then 0
    else 1 + FindById(products[1..], id)
  }

  /** `getSelectedProduct(productName)`: nothing when the category has no selection or selects
      the empty id; else the first product of the category's results with the selected id, if
      there is one. */
  function SelectedProduct(results: Dict<seq<Product>>, selected: Dict<string>, name: string): (r: Option<Product>)
    ensures r.Some? <==> Get(selected, name).Some? && Get(selected, name).value != [] &&
                         Get(selected, name).value in ProductIds(Get(results, name).GetOr([]))
    ensures r.Some? ==> r.value in Get(results, name).GetOr([]) && Get(selected, name) == Some(r.value.id)
    ensures r.Some? ==> var products := Get(results, name).GetOr([]);
      FindById(products, r.value.id) < |products| && r.value == products[FindById(products, r.value.id)]
  {
    match Get(selected, name)
    case None => None
    case Some(productId) =>
      if productId == [] then None
      else
        var products := Get(results, name).GetOr([]);
        var i := FindById(products, productId);
        assert productId in ProductIds(products) ==> i < |products| by {
          if productId in ProductIds(products) {
            var j :| 0 <= j < |products| && ProductIds(products)[j] == productId;
            assert !(j < i);
          }
        }
        if i < |products| then Some(products[i]) else None
  }

  /** The ids of a product list. */
  function ProductIds(products: seq<Product>): (ids: seq<string>)
    ensures |ids| == |products|
    ensures forall i :: 0 <= i < |products| ==> ids[i] == products[i].id
  {
    seq(|products|, i requires 0 <= i < |products| => products[i].id)
  }

  /** `cart.map(item => item.id === id ? { ...item, quantity: item.quantity + n } : item)`. */
  function Bump(cart: seq<CartItem>, id: string, n: int): (r: seq<CartItem>)
    ensures |r| == |cart|
    ensures forall i :: 0 <= i < |cart| ==> r[i].product == cart[i].product
    ensures forall i :: 0 <= i < |cart| ==> r[i].quantity == cart[i].quantity + if cart[i].product.id == id then n else 0
  {
    if cart == [] then []
    else
      var head := if cart[0].product.id == id then cart[0].(quantity := cart[0].quantity + n) else cart[0];
      [head] + Bump(cart[1..], id, n)
  }

  /** The new cart `addToCart` builds for product `p` and quantity `n`: an item with the same id
      grows by `n`; without one, the product is appended with quantity `n`. */
  function Merge(cart: seq<CartItem>, p: Product, n: int): (r: seq<CartItem>)
    ensures p.id in Ids(cart) ==> |r| == |cart| && Ids(r) == Ids(cart)
    ensures p.id in Ids(cart) ==> forall i :: 0 <= i < |cart| ==>
      r[i].product == cart[i].product && r[i].quantity == cart[i].quantity + if cart[i].product.id == p.id then n else 0
    ensures p.id !in Ids(cart) ==> |r| == |cart| + 1 && r[..|cart|] == cart && r[|cart|] == CartItem(p, n)
    ensures UniqueIds(cart) ==> UniqueIds(r)
  {
    if p.id in Ids(cart) then Bump(cart, p.id, n) else cart + [CartItem(p, n)]
  }

  /** With unique ids, adding changes the subtotal by `n` times the price already in the cart
      for that id, or by `n` times the product's price for a new one. */
  lemma MergeSubtotal(cart: seq<CartItem>, p: Product, n: int)
    requires UniqueIds(cart)
    ensures p.id in Ids(cart) ==>
      Subtotal(Merge(cart, p, n)) == Subtotal(cart) + n * cart[IndexOfId(cart, p.id)].product.price
    ensures p.id !in Ids(cart) ==> Subtotal(Merge(cart, p, n)) == Subtotal(cart) + p.price * n
  {
    if p.id in Ids(cart) {
      BumpSubtotal(cart, IndexOfId(cart, p.id), n);
    } else {
      SubtotalAppend(cart, [CartItem(p, n)]);
      SubtotalCons([CartItem(p, n)]);
    }
  }

  lemma BumpSubtotal(cart: seq<CartItem>, i: nat, n: int)
    requires UniqueIds(cart) && i < |cart|
    ensures Subtotal(Bump(cart, cart[i].product.id, n)) == Subtotal(cart) + n * cart[i].product.price
  {
    BumpSubtotalIsSet(cart, i, n);
    SetSubtotal(cart, i, n);
  }

  /** With unique ids, setting the quantity at `i` to `n` more changes the subtotal by `n` times
      its price. */
  lemma SetSubtotal(cart: seq<CartItem>, i: nat, n: int)
    requires UniqueIds(cart) && i < |cart|
    ensures Subtotal(WithQuantity(cart, cart[i].product.id, cart[i].quantity + n)) == Subtotal(cart) + n * cart[i].product.price
  {
    AmountOfUnique(cart, i);
    AmountAfterSet(cart, i, cart[i].quantity + n);
    SubtotalOfNewQuantity(cart, cart[i].product.id, cart[i].product.price, cart[i].quantity, n);
  }

  /** The subtotal after growing the item at `i` is the subtotal after setting it to the sum. */
  lemma BumpSubtotalIsSet(cart: seq<CartItem>, i: nat, n: int)
    requires UniqueIds(cart) && i < |cart|
    ensures Subtotal(Bump(cart, cart[i].product.id, n)) == Subtotal(WithQuantity(cart, cart[i].product.id, cart[i].quantity + n))
  {
    BumpIsWithQuantity(cart, i, n);
  }

  /** With unique ids, after setting the quantity at `i` to `v`, that id adds its price times `v`. */
  lemma AmountAfterSet(cart: seq<CartItem>, i: nat, v: int)
    requires UniqueIds(cart) && i < |cart|
    ensures Amount(WithQuantity(cart, cart[i].product.id, v), cart[i].product.id) == cart[i].product.price * v
  {
    var w := WithQuantity(cart, cart[i].product.id, v);
    assert UniqueIds(w) by {
      assert forall j :: 0 <= j < |w| ==> w[j].product == cart[j].product;
    }
    assert w[i].product == cart[i].product && w[i].quantity == v;
    AmountOfUnique(w, i);
  }

  /** The arithmetic of the step above, apart from the uniqueness of the ids. */
  lemma SubtotalOfNewQuantity(cart: seq<CartItem>, id: string, price: int, q: int, n: int)
    requires Amount(cart, id) == price * q
    requires Amount(WithQuantity(cart, id, q + n), id) == price * (q + n)
    ensures Subtotal(WithQuantity(cart, id, q + n)) == Subtotal(cart) + n * price
  {
    SubtotalWithQuantity(cart, id, q + n);
    Distribute(price, q, n);
  }

  lemma Distribute(a: int, b: int, c: int)
    ensures a * (b + c) == a * b + c * a
  {
  }

  /** With unique ids, growing the item at `i` by `n` is setting its quantity to the sum. */
  lemma BumpIsWithQuantity(cart: seq<CartItem>, i: nat, n: int)
    requires UniqueIds(cart) && i < |cart|
    ensures Bump(cart, cart[i].product.id, n) == WithQuantity(cart, cart[i].product.id, cart[i].quantity + n)
  {
    var id := cart[i].product.id;
    var b, w := Bump(cart, id, n), WithQuantity(cart, id, cart[i].quantity + n);
    forall j | 0 <= j < |cart| ensures b[j] == w[j] {
      assert cart[j].product.id == id ==> j == i;
    }
  }

  /** The cart `addAllToCart` leaves: every call merges into the same `cart`, and the cart of the
      last call that found a selected product is the one kept. */
  function LatestCart(results: Dict<seq<Product>>, selected: Dict<string>, keys: seq<string>, cart: seq<CartItem>): seq<CartItem>
  {
    if keys == [] then cart
    else
      match SelectedProduct(results, selected, keys[|keys| - 1])
      case Some(p) => Merge(cart, p, 1)
      case None => LatestCart(results, selected, keys[..|keys| - 1], cart)
  }

  /** One more category: its product, if one is selected, is merged into the original cart. */
  lemma LatestCartStep(results: Dict<seq<Product>>, selected: Dict<string>, keys: seq<string>, i: nat, cart: seq<CartItem>)
    requires i < |keys|
    ensures LatestCart(results, selected, keys[..i + 1], cart) ==
      match SelectedProduct(results, selected, keys[i])
      case Some(p) => Merge(cart, p, 1)
      case None => LatestCart(results, selected, keys[..i], cart)
  {
    assert keys[..i + 1][..i] == keys[..i] && keys[..i + 1][i] == keys[i];
  }

  /** What one `addToCart` per category would give if each call saw the cart the previous one
      made: the selected products merged in one after the other. */
  function MergeEach(results: Dict<seq<Product>>, selected: Dict<string>, keys: seq<string>, cart: seq<CartItem>): seq<CartItem>
    decreases |keys|
  {
    if keys == [] then cart
    else
      var next := match SelectedProduct(results, selected, keys[0])
                  case Some(p) => Merge(cart, p, 1)
                  case None => cart;
      MergeEach(results, selected, keys[1..], next)
  }

  /** What `checkout` and the coupon button show. */
  datatype Alert = NoAlert | Save10Applied | WelcomeApplied | InvalidCoupon | EmptyCart | CheckoutSuccessful(total: int)

  class ResultsPage {
    var searchResults: Dict<seq<Product>>
    var selectedProducts: Dict<string>
    var cart: seq<CartItem>
    var couponCode: string
    var isLoading: bool
    /** Set when the page sent the browser back to the home page. */
    var redirectedHome: bool

    /** The page once its loading effect has run: with saved results, those results and their
        initial selection; without, a redirect home. The cart starts empty either way. */
    constructor (saved: Option<Dict<seq<Product>>>)
      ensures searchResults == (if saved.Some? then saved.value else [])
      ensures selectedProducts == (if saved.Some? then Initial(saved.value) else [])
      ensures redirectedHome == saved.None?
      ensures cart == [] && couponCode == [] && !isLoading
    {
      searchResults := [];
      selectedProducts := [];
      cart := [];
      couponCode := [];
      redirectedHome := false;
      if saved.Some? {
        searchResults := saved.value;
        var initialSelections := InitialSelections(saved.value);
        selectedProducts := initialSelections;
      } else {
        redirectedHome := true;
      }
      isLoading := false;
    }

    /** `selectProduct(productName, productId)`: that category now selects `productId`; every
        other category keeps its selection. */
    method SelectProduct(productName: string, productId: string)
      modifies this
      ensures selectedProducts == Put(old(selectedProducts), productName, productId)
      ensures searchResults == old(searchResults) && cart == old(cart) && couponCode == old(couponCode)
      ensures isLoading == old(isLoading) && redirectedHome == old(redirectedHome)
    {
      selectedProducts := Put(selectedProducts, productName, productId);
    }

    /** `addToCart(productName, quantity)`: nothing without a selected product, else the merge. */
    method AddToCart(productName: string, quantity: int)
      modifies this
      ensures cart == match SelectedProduct(searchResults, selectedProducts, productName)
                      case Some(p) => Merge(old(cart), p, quantity)
                      case None => old(cart)
      ensures searchResults == old(searchResults) && selectedProducts == old(selectedProducts) && couponCode == old(couponCode)
      ensures isLoading == old(isLoading) && redirectedHome == old(redirectedHome)
    {
      var product := SelectedProduct(searchResults, selectedProducts, productName);
      if product.None? {
        return;
      }
      var newCart := Merge(cart, product.value, quantity);
      cart := newCart;
    }

    /** `updateCartQuantity(productId, newQuantity)`. */
    method UpdateCartQuantity(productId: string, newQuantity: int)
      modifies this
      ensures cart == if newQuantity <= 0 then Without(old(cart), productId) else WithQuantity(old(cart), productId, newQuantity)
      ensures searchResults == old(searchResults) && selectedProducts == old(selectedProducts) && couponCode == old(couponCode)
      ensures isLoading == old(isLoading) && redirectedHome == old(redirectedHome)
    {
      if newQuantity <= 0 {
        RemoveFromCart(productId);
        return;
      }
      cart := WithQuantity(cart, productId, newQuantity);
    }

    /** `removeFromCart(productId)`. */
    method RemoveFromCart(productId: string)
      modifies this
      ensures cart == Without(old(cart), productId)
      ensures searchResults == old(searchResults) && selectedProducts == old(selectedProducts) && couponCode == old(couponCode)
      ensures isLoading == old(isLoading) && redirectedHome == old(redirectedHome)
    {
      cart := Without(cart, productId);
    }

    /** The coupon input's `onChange`. */
    method SetCouponCode(code: string)
      modifies this
      ensures couponCode == code
      ensures searchResults == old(searchResults) && selectedProducts == old(selectedProducts) && cart == old(cart)
      ensures isLoading == old(isLoading) && redirectedHome == old(redirectedHome)
    {
      couponCode := code;
    }

    /** `applyCoupon()`: only an alert; the cart and its total stay as they are. */
    method ApplyCoupon() returns (alert: Alert)
      ensures alert == match CouponOf(couponCode)
                       case Some(Save10) => Save10Applied
                       case Some(Welcome) => WelcomeApplied
                       case None => InvalidCoupon
    {
      if Lower(couponCode) == "save10" {
        alert := Save10Applied;
      } else if Lower(couponCode) == "welcome" {
        alert := WelcomeApplied;
      } else {
        alert := InvalidCoupon;
      }
    }

    /** `addAllToCart()`: one `addToCart(name, 1)` per selected category, each building its cart
        from the cart of the render, so that only the last call's cart is kept. */
    method AddAllToCart()
      modifies this
      ensures cart == LatestCart(searchResults, selectedProducts, Keys(selectedProducts), old(cart))
      ensures searchResults == old(searchResults) && selectedProducts == old(selectedProducts) && couponCode == old(couponCode)
      ensures isLoading == old(isLoading) && redirectedHome == old(redirectedHome)
    {
      var names := Keys(selectedProducts);
      var latest := cart;
      var i := 0;
      while i < |names|
        invariant 0 <= i <= |names|
        invariant latest == LatestCart(searchResults, selectedProducts, names[..i], cart)
        invariant unchanged(this)
      {
        LatestCartStep(searchResults, selectedProducts, names, i, cart);
        var product := SelectedProduct(searchResults, selectedProducts, names[i]);
        if product.Some? {
          latest := Merge(cart, product.value, 1);
        }
        i := i + 1;
      }
      assert names[..i] == names;
      cart := latest;
    }

    /** `checkout()`: an empty cart only alerts; otherwise the total is announced and the cart
        emptied. */
    method Checkout() returns (alert: Alert)
      modifies this
      ensures alert == if old(cart) == [] then EmptyCart else CheckoutSuccessful(old(Subtotal(cart)))
      ensures cart == []
      ensures searchResults == old(searchResults) && selectedProducts == old(selectedProducts) && couponCode == old(couponCode)
      ensures isLoading == old(isLoading) && redirectedHome == old(redirectedHome)
    {
      if |cart| == 0 {
        alert := EmptyCart;
        return;
      }
      alert := CheckoutSuccessful(Subtotal(cart));
      cart := [];
    }
  }

  /** `addAllToCart` adds at most one item, however many categories are selected. */
  lemma {:induction false} AddAllAddsAtMostOne(results: Dict<seq<Product>>, selected: Dict<string>, keys: seq<string>, cart: seq<CartItem>)
    ensures |LatestCart(results, selected, keys, cart)| <= |cart| + 1
  {
    if keys != [] && SelectedProduct(results, selected, keys[|keys| - 1]).None? {
      AddAllAddsAtMostOne(results, selected, keys[..|keys| - 1], cart);
    }
  }

  /** The product that lands is the one of the last category, in key order, with a selected
      product; none lands when no category has one. */
  lemma {:induction false} AddAllTakesTheLast(results: Dict<seq<Product>>, selected: Dict<string>, keys: seq<string>, cart: seq<CartItem>, i: nat)
    requires i < |keys| && SelectedProduct(results, selected, keys[i]).Some?
    requires forall j :: i < j < |keys| ==> SelectedProduct(results, selected, keys[j]).None?
    ensures LatestCart(results, selected, keys, cart) == Merge(cart, SelectedProduct(results, selected, keys[i]).value, 1)
  {
    if i < |keys| - 1 {
      var init := keys[..|keys| - 1];
      assert init[i] == keys[i];
      forall j | i < j < |init| ensures SelectedProduct(results, selected, init[j]).None? {
        assert init[j] == keys[j];
      }
      AddAllTakesTheLast(results, selected, init, cart, i);
    }
  }

  /** No selected product, no change. */
  lemma {:induction false} AddAllWithoutSelection(results: Dict<seq<Product>>, selected: Dict<string>, keys: seq<string>, cart: seq<CartItem>)
    requires forall j :: 0 <= j < |keys| ==> SelectedProduct(results, selected, keys[j]).None?
    ensures LatestCart(results, selected, keys, cart) == cart
  {
    if keys != [] {
      var init := keys[..|keys| - 1];
      forall j | 0 <= j < |init| ensures SelectedProduct(results, selected, init[j]).None? {
        assert init[j] == keys[j];
      }
      AddAllWithoutSelection(results, selected, init, cart);
    }
  }

  /** Two categories selecting products with different ids: one `addToCart` after the other
      would put both in an empty cart, but `addAllToCart` keeps only the second. */
  lemma AddAllKeepsOnlyTheLast(results: Dict<seq<Product>>, selected: Dict<string>, a: string, b: string, p: Product, q: Product)
    requires p.id != q.id
    requires SelectedProduct(results, selected, a) == Some(p) && SelectedProduct(results, selected, b) == Some(q)
    ensures LatestCart(results, selected, [a, b], []) == [CartItem(q, 1)]
    ensures MergeEach(results, selected, [a, b], []) == [CartItem(p, 1), CartItem(q, 1)]
  {
    assert [a, b][1..] == [b];
    var first := Merge([], p, 1);
    assert first == [CartItem(p, 1)];
    assert Ids(first) == [p.id];
    assert MergeEach(results, selected, [b], first) == Merge(first, q, 1);
  }

  /** The catalogue reuses ids across categories, so a shampoo added after a toothpaste with the
      same id only raises the toothpaste's quantity. */
  lemma SameIdOtherCategory(t: Product, s: Product)
    requires t.id == s.id && t != s
    ensures Merge([CartItem(t, 1)], s, 1) == [CartItem(t, 2)]
  {
    assert Ids([CartItem(t, 1)]) == [t.id];
  }

  /** The table's first toothpaste and first shampoo share the id "0". */
  lemma TableIdsCollide()
    ensures Toothpaste()[0].id == Shampoo()[0].id
  {
  }
}
