/**
 * The marketplace cart: the subtotal of the items in cents, the 20 percent
 * platform fee, the total, and the quantity buttons of each item.
 */
module MarketplaceCart {
  import opened Common

  /** A cart line; a listing without a price has `priceCents` missing. */
  datatype CartItem = CartItem(id: int, priceCents: Option<int>, quantity: int)

  function LineTotal(item: CartItem): int
  {
    OrZero(item.priceCents) * item.quantity
  }

  /** `calculateSubtotal`: 0 before the cart has loaded, else the sum of price times quantity. */
  function Subtotal(cart: Option<seq<CartItem>>): int
  {
    if cart.None? then 0 else SumOf(cart.value, LineTotal)
  }

  /** `calculatePlatformFee`: 20 percent of the subtotal, to the nearest cent, halves up. */
  function PlatformFee(subtotal: int): (fee: int)
    ensures 10 * fee - 5 <= 2 * subtotal < 10 * fee + 5
    ensures subtotal >= 0 ==> 0 <= fee <= subtotal
  {
    JsRound(subtotal as real * 0.20)
  }

  /** The total charged: the subtotal plus the fee, never below the subtotal for a non-negative one. */
  function Total(subtotal: int): (t: int)
    ensures t - subtotal == PlatformFee(subtotal)
    ensures subtotal >= 0 ==> subtotal <= t <= 2 * subtotal
  {
    subtotal + PlatformFee(subtotal)
  }

  /** The minus button is disabled at a quantity of one or less. */
  predicate DecrementDisabled(quantity: int)
  {
    quantity <= 1
  }

  /** The quantity sent by the minus button: one less, never below 1. */
  function Decrement(quantity: int): (q: int)
    ensures q >= 1
    ensures !DecrementDisabled(quantity) ==> q == quantity - 1
  {
    Max(1, quantity - 1)
  }

  function Increment(quantity: int): int
  {
    quantity + 1
  }

  /** Plus then minus restores a quantity of at least one. */
  lemma IncrementThenDecrement(quantity: int)
    requires quantity >= 1
    ensures !DecrementDisabled(Increment(quantity)) && Decrement(Increment(quantity)) == quantity
  {
  }

  /** With priced items and positive quantities the subtotal is never negative. */
  lemma SubtotalNonNegative(items: seq<CartItem>)
    requires forall i :: 0 <= i < |items| ==> OrZero(items[i].priceCents) >= 0 && items[i].quantity >= 1
    ensures Subtotal(Some(items)) >= 0
  {
    forall x | x in items
      ensures LineTotal(x) >= 0
    {
      var i :| 0 <= i < |items| && items[i] == x;
    }
    SumOfNonNegative(items, LineTotal);
  }

  /** Changing one item's quantity by `d` changes the subtotal by `d` times that item's price. */
  lemma {:induction false} SubtotalAfterQuantityChange(items: seq<CartItem>, i: nat, d: int)
    requires i < |items|
    ensures var changed := items[i := items[i].(quantity := items[i].quantity + d)];
            Subtotal(Some(changed)) == Subtotal(Some(items)) + d * OrZero(items[i].priceCents)
  {
    var changed := items[i := items[i].(quantity := items[i].quantity + d)];
    if i == 0 {
      assert changed[1..] == items[1..];
      assert LineTotal(changed[0]) == LineTotal(items[0]) + d * OrZero(items[0].priceCents) by {
        var p := OrZero(items[0].priceCents);
        assert p * (items[0].quantity + d) == p * items[0].quantity + d * p;
      }
    } else {
      var rest := items[1..];
      assert changed[1..] == rest[i - 1 := rest[i - 1].(quantity := rest[i - 1].quantity + d)];
      SubtotalAfterQuantityChange(rest, i - 1, d);
    }
  }

  /** Adding a line adds its price times its quantity. */
  lemma SubtotalAppend(items: seq<CartItem>, item: CartItem)
    ensures Subtotal(Some(items + [item])) == Subtotal(Some(items)) + OrZero(item.priceCents) * item.quantity
  {
    SumOfAppend(items, [item], LineTotal);
  }

  /** `formatPrice`'s amount: cents shown as a currency amount. */
  function DisplayAmount(cents: int): (a: real)
    ensures a * 100.0 == cents as real
  {
    cents as real / 100.0
  }
}
