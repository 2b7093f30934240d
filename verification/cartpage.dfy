/** The cart page of the frontend (frontend/src/components/CartPage.tsx): the cart, the coupon
    code typed in, the discount and the label of the applied coupon, and the handlers that edit
    the cart, apply or remove a coupon and check out. Amounts are in cents. */
module CartPage {
  import opened Wrappers
  import opened Js
  import opened Carts

  /** The discount a coupon gives on a subtotal: 10% of it (rounded down to a cent), or $5. */
  function CouponDiscount(c: Coupon, subtotal: int): (d: int)
    ensures c == Save10 ==> 10 * d <= subtotal < 10 * d + 10
    ensures c == Welcome ==> d == 500
  {
    match c
    case Save10 => subtotal / 10
    case Welcome => 500
  }

  /** The label shown once a coupon is applied. */
  function CouponLabel(c: Coupon): string {
    match c
    case Save10 => "SAVE10 - 10% off"
    case Welcome => "WELCOME - $5 off"
  }

  /** `getTotal()`: the subtotal less the discount, with no lower bound. */
  function Total(cart: seq<CartItem>, discount: int): int {
    Subtotal(cart) - discount
  }

  /** What a handler shows in an `alert`, if anything. */
  datatype Alert = NoAlert | InvalidCoupon | EmptyCart | CheckoutSuccessful(total: int)

  class CartPage {
    var cart: seq<CartItem>
    var couponCode: string
    var discount: int
    var appliedCoupon: string

    /** The page once mounted: the cart read back from storage, if one was saved, and no coupon. */
    constructor (saved: Option<seq<CartItem>>)
      ensures cart == saved.GetOr([])
      ensures couponCode == [] && discount == 0 && appliedCoupon == []
    {
      cart := [];
      couponCode := [];
      discount := 0;
      appliedCoupon := [];
      if saved.Some? {
        cart := saved.value;
      }
    }

    /** `updateQuantity(productId, newQuantity)`: a quantity of zero or less removes the item,
        any other sets it. The coupon state, the discount included, stays as it was. */
    method UpdateQuantity(productId: string, newQuantity: int)
      modifies this
      ensures cart == if newQuantity <= 0 then Without(old(cart), productId) else WithQuantity(old(cart), productId, newQuantity)
      ensures couponCode == old(couponCode) && discount == old(discount) && appliedCoupon == old(appliedCoupon)
    {
      if newQuantity <= 0 {
        RemoveFromCart(productId);
        return;
      }
      cart := WithQuantity(cart, productId, newQuantity);
    }

    /** `removeFromCart(productId)`: keeps the items with another id, in order. */
    method RemoveFromCart(productId: string)
      modifies this
      ensures cart == Without(old(cart), productId)
      ensures couponCode == old(couponCode) && discount == old(discount) && appliedCoupon == old(appliedCoupon)
    {
      cart := Without(cart, productId);
    }

    /** The coupon input's `onChange`. */
    method SetCouponCode(code: string)
      modifies this
      ensures couponCode == code
      ensures cart == old(cart) && discount == old(discount) && appliedCoupon == old(appliedCoupon)
    {
      couponCode := code;
    }

    /** `applyCoupon()`: a known code sets the discount from the subtotal of the moment, the
        label, and clears the input; an unknown one changes nothing and alerts. */
    method ApplyCoupon() returns (alert: Alert)
      modifies this
      ensures cart == old(cart)
      ensures old(CouponOf(couponCode)).None? ==>
        alert == InvalidCoupon && couponCode == old(couponCode) && discount == old(discount) && appliedCoupon == old(appliedCoupon)
      ensures old(CouponOf(couponCode)).Some? ==>
        var c := old(CouponOf(couponCode)).value;
        alert == NoAlert && discount == CouponDiscount(c, Subtotal(cart)) && appliedCoupon == CouponLabel(c) && couponCode == []
    {
      var code := Lower(couponCode);
      if code == "save10" {
        discount := Subtotal(cart) / 10;
        appliedCoupon := "SAVE10 - 10% off";
        couponCode := [];
        alert := NoAlert;
      } else if code == "welcome" {
        discount := 500;
        appliedCoupon := "WELCOME - $5 off";
        couponCode := [];
        alert := NoAlert;
      } else {
        alert := InvalidCoupon;
      }
    }

    /** `removeCoupon()`: no discount and no label; the cart and the input stay. */
    method RemoveCoupon()
      modifies this
      ensures discount == 0 && appliedCoupon == []
      ensures cart == old(cart) && couponCode == old(couponCode)
    {
      discount := 0;
      appliedCoupon := [];
    }

    /** `checkout()`: an empty cart only alerts; otherwise the total is announced and the cart,
        the discount and the label are cleared. The coupon input is left as it is. */
    method Checkout() returns (alert: Alert)
      modifies this
      ensures old(cart) == [] ==> alert == EmptyCart && cart == [] && discount == old(discount) && appliedCoupon == old(appliedCoupon)
      ensures old(cart) != [] ==> alert == CheckoutSuccessful(old(Total(cart, discount))) && cart == [] && discount == 0 && appliedCoupon == []
      ensures couponCode == old(couponCode)
    {
      if |cart| == 0 {
        alert := EmptyCart;
        return;
      }
      alert := CheckoutSuccessful(Total(cart, discount));
      cart := [];
      discount := 0;
      appliedCoupon := [];
    }
  }

  /** The total has no floor: WELCOME on a subtotal under $5 makes it negative. */
  lemma WelcomeCanMakeTotalNegative(cart: seq<CartItem>)
    requires Subtotal(cart) < 500
    ensures Total(cart, CouponDiscount(Welcome, Subtotal(cart))) < 0
  {
  }

  /** The SAVE10 discount is worked out once, when the coupon is applied: raising the quantity
      of an item of at least 10 cents afterwards leaves a discount below 10% of the new
      subtotal. */
  lemma Save10IsStale(item: CartItem, q: int)
    requires item.product.price >= 10 && item.quantity < q
    ensures CouponDiscount(Save10, Subtotal([item])) < Subtotal(WithQuantity([item], item.product.id, q)) / 10
  {
    var p := item.product.price;
    var after := WithQuantity([item], item.product.id, q);
    assert after == [item.(quantity := q)];
    var before, now := p * item.quantity, p * q;
    assert Subtotal([item]) == before by {
      SubtotalCons([item]);
    }
    assert Subtotal(after) == now by {
      SubtotalCons(after);
    }
    MoreOfTheSame(p, item.quantity, q);
    TenthGrows(before, now);
  }

  lemma {:induction false} MoreOfTheSame(p: int, x: int, y: int)
    requires p >= 0 && x < y
    ensures p * y >= p * x + p
    decreases y - x
  {
    if y - x > 1 {
      MoreOfTheSame(p, x, y - 1);
      assert p * y == p * (y - 1) + p;
    } else {
      assert y == x + 1;
      assert p * y == p * x + p;
    }
  }

  lemma TenthGrows(a: int, b: int)
    requires b >= a + 10
    ensures a / 10 < b / 10
  {
  }
}
