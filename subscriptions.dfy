/**
 * Coaching subscriptions: the platform fee by the coach's tier, the coach's
 * earnings after the fee, the conversion of prices between dollars and
 * cents, the validation of an offering, the interval wording, and the
 * earnings and spending totals over subscribers and subscriptions.  The
 * same fee rule appears on the management page, in the management dialog
 * and on the my-subscriptions page; it is defined once here.
 */
module Subscriptions {
  import opened Common

  /**
   * The platform fee in percent: 18 for pro, 16 for star, and 22 for any
   * other tier or without a signed-in user.
   */
  function FeePercentage(tier: Option<string>): (fee: int)
    ensures fee == 16 <==> tier == Some("star")
    ensures fee == 18 <==> tier == Some("pro")
    ensures fee == 22 <==> tier != Some("star") && tier != Some("pro")
  {
    if tier.None? then 22
    else if tier.value == "pro" then 18
    else if tier.value == "star" then 16
    else 22
  }

  /** Star pays less than pro, pro less than everybody else, and no fee is outside 16 to 22 percent. */
  lemma FeeFallsWithTier(tier: Option<string>)
    ensures FeePercentage(Some("star")) < FeePercentage(Some("pro")) < FeePercentage(None)
    ensures 16 <= FeePercentage(tier) <= 22
  {
  }

  /**
   * `amount - Math.round(amount * fee / 100)`: what the coach keeps.  The
   * platform's share is the fee percentage to the nearest unit, halves up.
   */
  function EarningsAfterFee(amount: real, fee: int): (r: real)
    ensures -0.5 < (amount - r) - amount * fee as real / 100.0 <= 0.5
  {
    amount - JsRound(amount * fee as real / 100.0) as real
  }

  /** On a whole number of cents with a fee in [0, 100], the coach keeps between nothing and the whole amount. */
  lemma EarningsWithinAmount(cents: nat, fee: int)
    requires 0 <= fee <= 100
    ensures 0.0 <= EarningsAfterFee(cents as real, fee) <= cents as real
  {
    var share := JsRound(cents as real * fee as real / 100.0);
    var exact := cents as real * fee as real / 100.0;
    assert 0.0 <= exact <= cents as real by {
      assert 0.0 <= cents as real * fee as real <= cents as real * 100.0;
    }
    assert share as real - 0.5 <= exact < share as real + 0.5;
    assert 0 <= share <= cents;
  }

  /** A lower fee never leaves the coach less. */
  lemma EarningsFallWithFee(cents: nat, lower: int, higher: int)
    requires lower <= higher
    ensures EarningsAfterFee(cents as real, higher) <= EarningsAfterFee(cents as real, lower)
  {
    var lo := cents as real * lower as real / 100.0;
    var hi := cents as real * higher as real / 100.0;
    assert lo <= hi by {
      assert cents as real * lower as real <= cents as real * higher as real;
    }
    var rl := JsRound(lo);
    var rh := JsRound(hi);
    assert rl <= rh;
  }

  /**
   * The management page's `calculateCoachEarnings`: the amount is in
   * dollars and converted to cents first, unless it already is in cents.
   */
  function CoachEarnings(amount: real, isInCents: bool, tier: Option<string>): (r: real)
    ensures var value := if isInCents then amount else amount * 100.0;
            -0.5 < (value - r) - value * FeePercentage(tier) as real / 100.0 <= 0.5
  {
    var value := if isInCents then amount else amount * 100.0;
    EarningsAfterFee(value, FeePercentage(tier))
  }

  /** A dollar amount earns what the same amount in cents earns. */
  lemma DollarsEarnAsCents(dollars: real, tier: Option<string>)
    ensures CoachEarnings(dollars, false, tier) == CoachEarnings(dollars * 100.0, true, tier)
  {
  }

  /** The dialog's and the my-subscriptions page's earnings: the amount is already in cents, as on the page. */
  function CoachEarningsCents(cents: int, tier: Option<string>): (r: real)
    ensures r == CoachEarnings(cents as real, true, tier)
  {
    EarningsAfterFee(cents as real, FeePercentage(tier))
  }

  /** Dollars to cents on submission, `Math.round(amount * 100)`. */
  function ToCents(dollars: real): (c: int)
    ensures -0.5 < c as real - dollars * 100.0 <= 0.5
  {
    JsRound(dollars * 100.0)
  }

  /** Cents back to dollars when the offering is loaded. */
  function ToDollars(cents: int): real
  {
    cents as real / 100.0
  }

  /** Loading then saving leaves a stored price unchanged, and saving moves a price by less than half a cent. */
  lemma CentsRoundTrip(cents: int, dollars: real)
    ensures ToCents(ToDollars(cents)) == cents
    ensures -0.005 < ToDollars(ToCents(dollars)) - dollars <= 0.005
  {
    assert ToDollars(cents) * 100.0 == cents as real;
  }

  /** The offering form on the management page; the price is in dollars. */
  datatype OfferingForm = OfferingForm(title: string, description: string, priceAmount: real,
                                       priceCurrency: string, priceInterval: string)

  /** The schemas' length bounds, counted as `.length` counts: in UTF-16 code units. */
  predicate ValidTexts(title: string, description: string)
  {
    1 <= JsLength(title) <= 100 && 10 <= JsLength(description) <= 500
  }

  /** Sixty characters beyond the Basic Multilingual Plane are 120 code units: too long for a title. */
  lemma AstralTitleTooLong(title: string, description: string)
    requires |title| == 60 && forall i :: 0 <= i < |title| ==> title[i] as int >= 0x1_0000
    ensures !ValidTexts(title, description)
  {
    JsLengthAllAstral(title);
  }

  predicate ValidCurrencyAndInterval(currency: string, interval: string)
  {
    currency in {"USD", "EUR"} && interval in {"week", "month", "year"}
  }

  /** The management page's schema: a price of 1 to 1000 dollars. */
  predicate ValidPageOffering(f: OfferingForm)
  {
    ValidTexts(f.title, f.description) && 1.0 <= f.priceAmount <= 1000.0
    && ValidCurrencyAndInterval(f.priceCurrency, f.priceInterval)
  }

  /** The dialog's schema: the same, with a price of 100 to 100000 cents. */
  predicate ValidDialogOffering(f: OfferingForm)
  {
    ValidTexts(f.title, f.description) && 100.0 <= f.priceAmount <= 100000.0
    && ValidCurrencyAndInterval(f.priceCurrency, f.priceInterval)
  }

  /** A price the page accepts is sent as a number of cents the dialog accepts. */
  lemma PagePriceFitsDialog(f: OfferingForm)
    requires ValidPageOffering(f)
    ensures ValidDialogOffering(f.(priceAmount := ToCents(f.priceAmount) as real))
  {
    var c := ToCents(f.priceAmount);
    assert 100.0 <= f.priceAmount * 100.0 <= 100000.0;
    assert 100 <= c <= 100000;
  }

  /** `getIntervalText`. */
  function IntervalText(interval: string): string
  {
    match interval
    case "week" => "per week"
    case "month" => "per month"
    case "year" => "per year"
    case _ => "per " + interval
  }

  /** Every interval, named or not, reads 'per' followed by the interval itself. */
  lemma IntervalTextIsPerInterval(interval: string)
    ensures IntervalText(interval) == "per " + interval
  {
  }

  /** `formatPrice`'s currency sign: '$' for US dollars, '€' for anything else. */
  function CurrencySign(currency: string): string
  {
    if currency == "USD" then "$" else "€"
  }

  /** `formatPrice`'s value: an amount in cents is shown divided by 100. */
  function PriceValue(amount: real, isInCents: bool): (v: real)
    ensures isInCents ==> v * 100.0 == amount
    ensures !isInCents ==> v == amount
  {
    if isInCents then amount / 100.0 else amount
  }

  /** A subscriber of the coach, with the coach's share of the payment when known. */
  datatype Subscriber = Subscriber(status: string, coachAmount: Option<int>)

  /** A subscription the user pays for, with its amount when known. */
  datatype Subscription = Subscription(status: string, totalAmount: Option<int>)

  function CoachAmount(s: Subscriber): int
  {
    OrZero(s.coachAmount)
  }

  function TotalAmount(s: Subscription): int
  {
    OrZero(s.totalAmount)
  }

  predicate ActiveSubscriber(s: Subscriber)
  {
    s.status == "active"
  }

  predicate ActiveSubscription(s: Subscription)
  {
    s.status == "active"
  }

  /** The dialog's monthly earnings: every subscriber's share, missing ones as 0. */
  function MonthlyEarnings(subscribers: seq<Subscriber>): int
  {
    SumOf(subscribers, CoachAmount)
  }

  /** `getTotalEarnings`: 0 before the data has loaded, else the shares of the active subscribers. */
  function TotalEarnings(subscribers: Option<seq<Subscriber>>): int
  {
    if subscribers.None? then 0 else SumOf(Filter(subscribers.value, ActiveSubscriber), CoachAmount)
  }

  /** `getTotalSpending`: 0 before the data has loaded, else the amounts of the active subscriptions. */
  function TotalSpending(subscriptions: Option<seq<Subscription>>): int
  {
    if subscriptions.None? then 0 else SumOf(Filter(subscriptions.value, ActiveSubscription), TotalAmount)
  }

  /** The net monthly income shown on the my-subscriptions page. */
  function NetIncome(subscribers: Option<seq<Subscriber>>, subscriptions: Option<seq<Subscription>>): (n: int)
    ensures n + TotalSpending(subscriptions) == TotalEarnings(subscribers)
  {
    TotalEarnings(subscribers) - TotalSpending(subscriptions)
  }

  /** A subscriber who is not active adds nothing to the total earnings; an active one adds their share. */
  lemma EarningsCountActiveOnly(subscribers: seq<Subscriber>, s: Subscriber)
    ensures TotalEarnings(Some(subscribers + [s]))
            == TotalEarnings(Some(subscribers)) + (if ActiveSubscriber(s) then CoachAmount(s) else 0)
  {
    FilterAppend(subscribers, [s], ActiveSubscriber);
    SumOfAppend(Filter(subscribers, ActiveSubscriber), Filter([s], ActiveSubscriber), CoachAmount);
    assert Filter([s], ActiveSubscriber) == (if ActiveSubscriber(s) then [s] else []) by {
      assert [s][1..] == [];
    }
  }

  /** With non-negative shares, the active subscribers earn no more than all of them. */
  lemma {:induction false} ActiveEarningsAtMostMonthly(subscribers: seq<Subscriber>)
    requires forall i :: 0 <= i < |subscribers| ==> CoachAmount(subscribers[i]) >= 0
    ensures 0 <= TotalEarnings(Some(subscribers)) <= MonthlyEarnings(subscribers)
  {
    if subscribers != [] {
      var rest := subscribers[1..];
      assert forall i :: 0 <= i < |rest| ==> CoachAmount(rest[i]) >= 0 by {
        forall i | 0 <= i < |rest| ensures CoachAmount(rest[i]) >= 0 {
          assert rest[i] == subscribers[i + 1];
        }
      }
      ActiveEarningsAtMostMonthly(rest);
      var head := if ActiveSubscriber(subscribers[0]) then [subscribers[0]] else [];
      assert Filter(subscribers, ActiveSubscriber) == head + Filter(rest, ActiveSubscriber);
      SumOfAppend(head, Filter(rest, ActiveSubscriber), CoachAmount);
      assert CoachAmount(subscribers[0]) >= 0;
    }
  }
}
