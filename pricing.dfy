/** The `get_price` endpoint: the price of `amount` domains after the
    caller's loyalty discounts. Amounts of BTC are exact reals instead of
    `f64`. The database and the BRC-20 balance service enter as values and
    functions the caller supplies. */
module Pricing {
  import Payments

  newtype u32 = x: int | 0 <= x < 0x1_0000_0000

  /** One discount rule as `get_loyalty_discounts_for_collections` returns it. */
  datatype LoyaltyDiscount = LoyaltyDiscount(
    collectionId: string,
    amount: real,
    currency: string,
    message: string,
    stackable: bool
  )

  datatype LoyaltyDiscountResponseObject = LoyaltyDiscountResponseObject(
    message: string,
    amount: real,
    currency: string
  )

  datatype PricingResponseObject = PricingResponseObject(
    stackableLoyaltyDiscounts: seq<LoyaltyDiscountResponseObject>,
    nonStackableLoyaltyDiscounts: seq<string>,
    nonStackableLoyaltyDiscount: real,
    nonStackableLoyaltyDiscountCurrency: string,
    finalPrice: real
  )

  datatype PricingResponse =
    | Ok(body: PricingResponseObject)
    | BadRequest(message: string)
    | Unauthorized(message: string)
    | InternalServerError(message: string)

  const ZeroDomainsMessage: string := "Can not calculate price for 0 domains."
  const AddressesFailedMessage: string := "Failed to get addresses for user."
  const CollectionsFailedMessage: string := "Failed to get owned collections."
  const InvalidDiscountMessage: string := "Invalid loyalty discount, please contact a system administrator."
  const BelowMinimumMessage: string :=
    "Incorrect calculation of discounts, please contact a system administrator to get this in order."

  /** A BRC-20 balance reported by the wallet service. */
  datatype Brc20Collection = Brc20Collection(amount: real, ticker: string)

  /** What `get_wallets_collections` yields: the balances, or an HTTP or
      decoding failure. */
  datatype OwnedCollections = Owned(brc20s: seq<Brc20Collection>) | OwnedFailed

  /** One `(collection, kind, owned amount)` tuple of the discount query;
      kind 0 is a BRC-20 token and kind 1 an NFT-style collection. */
  datatype CollectionQueryRow = CollectionQueryRow(collectionId: string, kind: int, owned: real)

  /** The NFT-style collections every caller is queried for, one each. */
  const FixedCollections: seq<string> := ["bit-apes", "bitcoin-frogs", "other"]

  /** The discount query: every BRC-20 balance as kind 0, then the fixed
      NFT-style collections as kind 1 with an owned count of 1. */
  function CollectionQuery(brc20s: seq<Brc20Collection>): (q: seq<CollectionQueryRow>)
    ensures |q| == |brc20s| + |FixedCollections|
    ensures forall i :: 0 <= i < |brc20s| ==>
              q[i] == CollectionQueryRow(brc20s[i].ticker, 0, brc20s[i].amount)
    ensures forall j :: 0 <= j < |FixedCollections| ==>
              q[|brc20s| + j] == CollectionQueryRow(FixedCollections[j], 1, 1.0)
  {
    seq(|brc20s|, i requires 0 <= i < |brc20s| => CollectionQueryRow(brc20s[i].ticker, 0, brc20s[i].amount))
    + seq(|FixedCollections|, j requires 0 <= j < |FixedCollections| => CollectionQueryRow(FixedCollections[j], 1, 1.0))
  }

  /** `unwrap_or_default`: a failed discount query means no discounts. */
  function DiscountsOrNone(r: Payments.DbResult<seq<LoyaltyDiscount>>): (ds: seq<LoyaltyDiscount>)
    ensures r.Ok? ==> ds == r.value
    ensures r.Err? ==> ds == []
  {
    match r
    case Ok(ds) => ds
    case Err(_) => []
  }

  predicate KnownCurrency(c: string) {
    c == "%" || c == "BTC"
  }

  /** The price one non-stackable rule alone would give, from the
      undiscounted base. */
  function PriceAfter(base: real, d: LoyaltyDiscount): (p: real)
    requires KnownCurrency(d.currency)
    ensures d.currency == "BTC" ==> p == base - d.amount
    ensures d.currency == "%" && base >= 0.0 && d.amount >= 0.0 ==> p <= base
  {
    if d.currency == "%" then base * (1.0 - d.amount / 100.0) else base - d.amount
  }

  /** The accumulators of the discount loop, or its early return on a
      non-stackable rule with an unknown currency. */
  datatype Scan =
    | Scan(
        stackables: seq<LoyaltyDiscountResponseObject>,
        stackablePercent: real,
        messages: seq<string>,
        bestPrice: real,
        bestAmount: real,
        bestCurrency: string
      )
    | InvalidCurrency

  function Start(base: real): Scan {
    Scan([], 0.0, [], base, 0.0, "")
  }

  /** One iteration of the discount loop. */
  function Step(base: real, s: Scan, d: LoyaltyDiscount): Scan {
    if s.InvalidCurrency? then s
    else if d.stackable then
      s.(stackables := s.stackables + [LoyaltyDiscountResponseObject(d.message, d.amount, d.currency)],
         stackablePercent := s.stackablePercent + d.amount)
    else if !KnownCurrency(d.currency) then InvalidCurrency
    else
      var p := PriceAfter(base, d);
      var chosen := if p < s.bestPrice then s.(bestPrice := p, bestAmount := d.amount, bestCurrency := d.currency) else s;
      chosen.(messages := s.messages + [d.message])
  }

  /** The loop run over a whole list of rules, first to last. */
  function ScanAll(base: real, ds: seq<LoyaltyDiscount>): Scan {
    if |ds| == 0 then Start(base) else Step(base, ScanAll(base, ds[..|ds| - 1]), ds[|ds| - 1])
  }

  /** `(x * 1e7).ceil() / 1e7`: rounds up to a multiple of 1e-7. */
  function Ceil7(x: real): (c: real)
    ensures x <= c < x + 0.0000001
    ensures (c * 10000000.0).Floor as real == c * 10000000.0
  {
    var ticks := -((-(x * 10000000.0)).Floor);
    assert ticks as real / 10000000.0 * 10000000.0 == ticks as real;
    ticks as real / 10000000.0
  }

  /** The price before rounding: the chosen BTC rule comes off the base,
      the chosen percent rule joins the stackable percentages, and the
      total percentage is applied once. */
  function Discounted(base: real, s: Scan): real
    requires s.Scan?
  {
    var reduced := if s.bestCurrency == "BTC" then base - s.bestAmount else base;
    var percent := if s.bestCurrency == "%" then s.stackablePercent + s.bestAmount else s.stackablePercent;
    reduced * (1.0 - percent / 100.0)
  }

  /** `get_price` as a function of what it reads. `addresses` is the result
      of `get_addresses(user)`, `walletsCollections` stands for
      `get_wallets_collections`, `discountsFor` for
      `get_loyalty_discounts_for_collections`; `domainPrice` and
      `minimumPrice` are `DOMAIN_PRICE_BTC` and `MINIMUM_DOMAIN_PRICE_BTC`. */
  function PriceOf(
    amount: u32,
    addresses: Payments.DbResult<seq<string>>,
    walletsCollections: seq<string> -> OwnedCollections,
    discountsFor: seq<CollectionQueryRow> -> Payments.DbResult<seq<LoyaltyDiscount>>,
    domainPrice: real,
    minimumPrice: real
  ): PricingResponse
  {
    if amount == 0 then BadRequest(ZeroDomainsMessage)
    else if addresses.Err? then InternalServerError(AddressesFailedMessage)
    else
      var owned := walletsCollections(addresses.value);
      if owned.OwnedFailed? then InternalServerError(CollectionsFailedMessage)
      else
        var base := amount as real * domainPrice;
        var s := ScanAll(base, DiscountsOrNone(discountsFor(CollectionQuery(owned.brc20s))));
        if s.InvalidCurrency? then InternalServerError(InvalidDiscountMessage)
        else
          var finalPrice := Ceil7(Discounted(base, s));
          if finalPrice < minimumPrice then InternalServerError(BelowMinimumMessage)
          else Ok(PricingResponseObject(s.stackables, s.messages, s.bestAmount, s.bestCurrency, finalPrice))
  }

  /** Once the loop has returned early, later rules change nothing. */
  lemma {:induction false} InvalidStays(base: real, a: seq<LoyaltyDiscount>, b: seq<LoyaltyDiscount>)
    requires ScanAll(base, a).InvalidCurrency?
    ensures ScanAll(base, a + b).InvalidCurrency?
    decreases |b|
  {
    if |b| > 0 {
      var b' := b[..|b| - 1];
      InvalidStays(base, a, b');
      assert (a + b)[..|a + b| - 1] == a + b';
    } else {
      assert a + b == a;
    }
  }

  // Independent statements of what the loop computes, first rule first.

  function ResponseOf(d: LoyaltyDiscount): LoyaltyDiscountResponseObject {
    LoyaltyDiscountResponseObject(d.message, d.amount, d.currency)
  }

  /** Every stackable rule, in order, whatever its currency. */
  function StackableResponses(ds: seq<LoyaltyDiscount>): seq<LoyaltyDiscountResponseObject> {
    if |ds| == 0 then []
    else (if ds[0].stackable then [ResponseOf(ds[0])] else []) + StackableResponses(ds[1..])
  }

  /** The sum of the amounts of the stackable rules. */
  function StackableTotal(ds: seq<LoyaltyDiscount>): real {
    if |ds| == 0 then 0.0
    else (if ds[0].stackable then ds[0].amount else 0.0) + StackableTotal(ds[1..])
  }

  /** The message of every non-stackable rule, in order. */
  function NonStackableMessages(ds: seq<LoyaltyDiscount>): seq<string> {
    if |ds| == 0 then []
    else (if ds[0].stackable then [] else [ds[0].message]) + NonStackableMessages(ds[1..])
  }

  /** Some non-stackable rule has a currency other than "%" and "BTC". */
  predicate HasInvalidRule(ds: seq<LoyaltyDiscount>) {
    exists k :: 0 <= k < |ds| && !ds[k].stackable && !KnownCurrency(ds[k].currency)
  }

  predicate Candidate(d: LoyaltyDiscount) {
    !d.stackable && KnownCurrency(d.currency)
  }

  /** No non-stackable rule prices below `price`. */
  ghost predicate NoneBelow(base: real, ds: seq<LoyaltyDiscount>, price: real) {
    forall k :: 0 <= k < |ds| && Candidate(ds[k]) ==> price <= PriceAfter(base, ds[k])
  }

  /** Rule `j` is the one a buyer should get: strictly below the base, no
      other rule lower, and every earlier rule strictly higher. */
  ghost predicate IsBest(base: real, ds: seq<LoyaltyDiscount>, j: int) {
    && 0 <= j < |ds| && Candidate(ds[j])
    && PriceAfter(base, ds[j]) < base
    && NoneBelow(base, ds, PriceAfter(base, ds[j]))
    && forall k :: 0 <= k < j && Candidate(ds[k]) ==> PriceAfter(base, ds[j]) < PriceAfter(base, ds[k])
  }

  lemma {:induction false} StackableResponsesSnoc(a: seq<LoyaltyDiscount>, x: LoyaltyDiscount)
    ensures StackableResponses(a + [x]) == StackableResponses(a) + (if x.stackable then [ResponseOf(x)] else [])
    decreases |a|
  {
    if |a| > 0 {
      assert (a + [x])[1..] == a[1..] + [x];
      StackableResponsesSnoc(a[1..], x);
    } else {
      assert a + [x] == [x];
    }
  }

  lemma {:induction false} StackableTotalSnoc(a: seq<LoyaltyDiscount>, x: LoyaltyDiscount)
    ensures StackableTotal(a + [x]) == StackableTotal(a) + (if x.stackable then x.amount else 0.0)
    decreases |a|
  {
    if |a| > 0 {
      assert (a + [x])[1..] == a[1..] + [x];
      StackableTotalSnoc(a[1..], x);
    } else {
      assert a + [x] == [x];
    }
  }

  lemma {:induction false} NonStackableMessagesSnoc(a: seq<LoyaltyDiscount>, x: LoyaltyDiscount)
    ensures NonStackableMessages(a + [x]) == NonStackableMessages(a) + (if x.stackable then [] else [x.message])
    decreases |a|
  {
    if |a| > 0 {
      assert (a + [x])[1..] == a[1..] + [x];
      NonStackableMessagesSnoc(a[1..], x);
    } else {
      assert a + [x] == [x];
    }
  }

  /** The loop stops early exactly when a non-stackable rule has an unknown
      currency (stackable rules are never checked), and otherwise lists
      every stackable rule, sums their amounts and lists every
      non-stackable message. */
  lemma {:induction false} ScanLists(base: real, ds: seq<LoyaltyDiscount>)
    ensures ScanAll(base, ds).InvalidCurrency? <==> HasInvalidRule(ds)
    ensures ScanAll(base, ds).Scan? ==>
              && ScanAll(base, ds).stackables == StackableResponses(ds)
              && ScanAll(base, ds).stackablePercent == StackableTotal(ds)
              && ScanAll(base, ds).messages == NonStackableMessages(ds)
    decreases |ds|
  {
    if |ds| > 0 {
      var a, x := ds[..|ds| - 1], ds[|ds| - 1];
      assert ds == a + [x];
      ScanLists(base, a);
      StackableResponsesSnoc(a, x);
      StackableTotalSnoc(a, x);
      NonStackableMessagesSnoc(a, x);
      if HasInvalidRule(a) {
        var k :| 0 <= k < |a| && !a[k].stackable && !KnownCurrency(a[k].currency);
        assert ds[k] == a[k];
      }
    }
  }

  /** The chosen non-stackable rule is the best for the buyer, computed
      from the undiscounted base, ties keeping the first; when no rule
      prices below the base none is chosen and the reported discount is
      (0, ""). The chosen currency is always "", "%" or "BTC". */
  lemma {:induction false} BestChoice(base: real, ds: seq<LoyaltyDiscount>)
    requires ScanAll(base, ds).Scan?
    ensures var s := ScanAll(base, ds);
            && s.bestCurrency in {"", "%", "BTC"}
            && (s.bestCurrency == "" <==> NoneBelow(base, ds, base))
            && (s.bestCurrency == "" ==> s.bestPrice == base && s.bestAmount == 0.0)
            && (s.bestCurrency != "" ==>
                  exists j :: IsBest(base, ds, j) && s.bestPrice == PriceAfter(base, ds[j])
                              && s.bestAmount == ds[j].amount && s.bestCurrency == ds[j].currency)
    decreases |ds|
  {
    if |ds| > 0 {
      var a, x := ds[..|ds| - 1], ds[|ds| - 1];
      assert ds == a + [x];
      BestChoice(base, a);
      var s0 := ScanAll(base, a);
      NoneBelowSnoc(base, a, x, base);
      if s0.bestCurrency != "" {
        var j :| IsBest(base, a, j) && s0.bestPrice == PriceAfter(base, a[j])
                 && s0.bestAmount == a[j].amount && s0.bestCurrency == a[j].currency;
        if Candidate(x) && PriceAfter(base, x) < s0.bestPrice {
          IsBestLast(base, a, x, s0.bestPrice);
        } else {
          IsBestSnoc(base, a, x, j);
        }
      } else if Candidate(x) && PriceAfter(base, x) < s0.bestPrice {
        IsBestLast(base, a, x, s0.bestPrice);
      }
    }
  }

  lemma NoneBelowSnoc(base: real, a: seq<LoyaltyDiscount>, x: LoyaltyDiscount, p: real)
    ensures NoneBelow(base, a + [x], p) <==> NoneBelow(base, a, p) && (Candidate(x) ==> p <= PriceAfter(base, x))
  {
    if NoneBelow(base, a + [x], p) {
      forall k | 0 <= k < |a| && Candidate(a[k]) ensures p <= PriceAfter(base, a[k]) {
        assert (a + [x])[k] == a[k];
      }
      assert (a + [x])[|a|] == x;
    }
  }

  /** An earlier best rule stays best when the new rule is no lower. */
  lemma IsBestSnoc(base: real, a: seq<LoyaltyDiscount>, x: LoyaltyDiscount, j: int)
    requires IsBest(base, a, j)
    requires Candidate(x) ==> PriceAfter(base, a[j]) <= PriceAfter(base, x)
    ensures IsBest(base, a + [x], j)
  {
    assert (a + [x])[j] == a[j];
    NoneBelowSnoc(base, a, x, PriceAfter(base, a[j]));
  }

  /** A new rule strictly below every earlier one and below the base is the
      best one. */
  lemma IsBestLast(base: real, a: seq<LoyaltyDiscount>, x: LoyaltyDiscount, bound: real)
    requires Candidate(x) && PriceAfter(base, x) < bound <= base
    requires NoneBelow(base, a, bound)
    ensures IsBest(base, a + [x], |a|)
  {
    NoneBelowSnoc(base, a, x, PriceAfter(base, x));
  }

  /** At most one rule is the best one, so the choice is determined. */
  lemma BestIsUnique(base: real, ds: seq<LoyaltyDiscount>, i: int, j: int)
    requires IsBest(base, ds, i) && IsBest(base, ds, j)
    ensures i == j
  {
  }

  /** The discount list `get_price` works on. */
  function DiscountsSeen(
    addresses: Payments.DbResult<seq<string>>,
    walletsCollections: seq<string> -> OwnedCollections,
    discountsFor: seq<CollectionQueryRow> -> Payments.DbResult<seq<LoyaltyDiscount>>
  ): seq<LoyaltyDiscount>
    requires addresses.Ok? && walletsCollections(addresses.value).Owned?
  {
    DiscountsOrNone(discountsFor(CollectionQuery(walletsCollections(addresses.value).brc20s)))
  }

  /** Which outcome `get_price` gives: a zero quantity is a bad request
      whatever else holds; a failed address or balance lookup, an unknown
      currency on a non-stackable rule, or a rounded price below the
      minimum is an internal error; a failed discount query counts as no
      discounts. */
  lemma PriceOutcomes(
    amount: u32,
    addresses: Payments.DbResult<seq<string>>,
    walletsCollections: seq<string> -> OwnedCollections,
    discountsFor: seq<CollectionQueryRow> -> Payments.DbResult<seq<LoyaltyDiscount>>,
    domainPrice: real,
    minimumPrice: real
  )
    ensures var r := PriceOf(amount, addresses, walletsCollections, discountsFor, domainPrice, minimumPrice);
            && (amount == 0 ==> r == BadRequest(ZeroDomainsMessage))
            && (amount != 0 && addresses.Err? ==> r == InternalServerError(AddressesFailedMessage))
            && (amount != 0 && addresses.Ok? && walletsCollections(addresses.value).OwnedFailed? ==>
                  r == InternalServerError(CollectionsFailedMessage))
            && (amount != 0 && addresses.Ok? && walletsCollections(addresses.value).Owned? ==>
                  var ds := DiscountsSeen(addresses, walletsCollections, discountsFor);
                  (r == InternalServerError(InvalidDiscountMessage) <==> HasInvalidRule(ds))
                  && (discountsFor(CollectionQuery(walletsCollections(addresses.value).brc20s)).Err? ==> ds == [])
                  && (!HasInvalidRule(ds) ==>
                        var base := amount as real * domainPrice;
                        && ScanAll(base, ds).Scan?
                        && (r.Ok? <==> FinalPrice(base, ds) >= minimumPrice)
                        && (!r.Ok? ==> r == InternalServerError(BelowMinimumMessage))))
            && (amount != 0 ==> !r.BadRequest?)
            && !r.Unauthorized?
  {
    if amount != 0 && addresses.Ok? && walletsCollections(addresses.value).Owned? {
      var ds := DiscountsSeen(addresses, walletsCollections, discountsFor);
      ScanLists(amount as real * domainPrice, ds);
    }
  }

  /** The price before rounding, read off a response's own fields: the
      chosen BTC amount comes off the base and the chosen percentage joins
      the stackable total. */
  function UnroundedFromFields(body: PricingResponseObject, base: real, stackablePercent: real): real {
    var amt, cur := body.nonStackableLoyaltyDiscount, body.nonStackableLoyaltyDiscountCurrency;
    (if cur == "BTC" then base - amt else base)
    * (1.0 - (stackablePercent + (if cur == "%" then amt else 0.0)) / 100.0)
  }

  /** The fields of an Ok response: the stackable rules, the non-stackable
      messages, the best rule's amount and currency, and the unrounded price
      rounded up by less than 1e-7, never below the minimum. */
  lemma PriceResponse(
    amount: u32,
    addresses: Payments.DbResult<seq<string>>,
    walletsCollections: seq<string> -> OwnedCollections,
    discountsFor: seq<CollectionQueryRow> -> Payments.DbResult<seq<LoyaltyDiscount>>,
    domainPrice: real,
    minimumPrice: real
  )
    requires PriceOf(amount, addresses, walletsCollections, discountsFor, domainPrice, minimumPrice).Ok?
    ensures addresses.Ok? && walletsCollections(addresses.value).Owned?
    ensures var body := PriceOf(amount, addresses, walletsCollections, discountsFor, domainPrice, minimumPrice).body;
            var ds := DiscountsSeen(addresses, walletsCollections, discountsFor);
            var base := amount as real * domainPrice;
            var s := ScanAll(base, ds);
            && body.stackableLoyaltyDiscounts == StackableResponses(ds)
            && body.nonStackableLoyaltyDiscounts == NonStackableMessages(ds)
            && (body.nonStackableLoyaltyDiscountCurrency == "" <==> NoneBelow(base, ds, base))
            && (body.nonStackableLoyaltyDiscountCurrency == "" ==> body.nonStackableLoyaltyDiscount == 0.0)
            && (body.nonStackableLoyaltyDiscountCurrency != "" ==>
                  exists j :: IsBest(base, ds, j) && body.nonStackableLoyaltyDiscount == ds[j].amount
                              && body.nonStackableLoyaltyDiscountCurrency == ds[j].currency)
            && s.Scan? && s.stackablePercent == StackableTotal(ds)
            && body.finalPrice == FinalPrice(base, ds)
            && Discounted(base, s) <= body.finalPrice < Discounted(base, s) + 0.0000001
            && body.finalPrice >= minimumPrice
    ensures var body := PriceOf(amount, addresses, walletsCollections, discountsFor, domainPrice, minimumPrice).body;
            var ds := DiscountsSeen(addresses, walletsCollections, discountsFor);
            var base := amount as real * domainPrice;
            && UnroundedFromFields(body, base, StackableTotal(ds)) == Discounted(base, ScanAll(base, ds))
            && body.finalPrice == Ceil7(UnroundedFromFields(body, base, StackableTotal(ds)))
  {
    var ds := DiscountsSeen(addresses, walletsCollections, discountsFor);
    var base := amount as real * domainPrice;
    ScanLists(base, ds);
    BestChoice(base, ds);
    var s := ScanAll(base, ds);
    var body := PriceOf(amount, addresses, walletsCollections, discountsFor, domainPrice, minimumPrice).body;
    assert body.nonStackableLoyaltyDiscount == s.bestAmount && body.nonStackableLoyaltyDiscountCurrency == s.bestCurrency;
    UnroundedIsDiscounted(body, base, s);
  }

  lemma UnroundedIsDiscounted(body: PricingResponseObject, base: real, s: Scan)
    requires s.Scan?
    requires body.nonStackableLoyaltyDiscount == s.bestAmount
    requires body.nonStackableLoyaltyDiscountCurrency == s.bestCurrency
    ensures UnroundedFromFields(body, base, s.stackablePercent) == Discounted(base, s)
  {
    var amt, p := s.bestAmount, s.stackablePercent;
    if s.bestCurrency == "BTC" {
      assert UnroundedFromFields(body, base, p) == (base - amt) * (1.0 - (p + 0.0) / 100.0);
      assert Discounted(base, s) == (base - amt) * (1.0 - p / 100.0);
    } else if s.bestCurrency == "%" {
      assert UnroundedFromFields(body, base, p) == base * (1.0 - (p + amt) / 100.0);
      assert Discounted(base, s) == base * (1.0 - (p + amt) / 100.0);
    } else {
      assert UnroundedFromFields(body, base, p) == base * (1.0 - (p + 0.0) / 100.0);
      assert Discounted(base, s) == base * (1.0 - p / 100.0);
    }
  }

  /** The price `get_price` settles on for a list of rules, before the
      minimum check. */
  function FinalPrice(base: real, ds: seq<LoyaltyDiscount>): real
    requires ScanAll(base, ds).Scan?
  {
    Ceil7(Discounted(base, ScanAll(base, ds)))
  }

  /** Two domains at 0.0007 BTC with no rules cost 0.0014 BTC. */
  lemma NoDiscountExample()
    ensures ScanAll(2.0 * 0.0007, []).Scan? && FinalPrice(2.0 * 0.0007, []) == 0.0014
  {
  }

  /** Stackable 10% and 5% rules take 15% off once: 0.000595 BTC. */
  lemma StackedPercentExample()
    ensures var ds := [LoyaltyDiscount("a", 10.0, "%", "ten", true), LoyaltyDiscount("b", 5.0, "%", "five", true)];
            ScanAll(0.0007, ds).Scan? && FinalPrice(0.0007, ds) == 0.000595
  {
    var ds := [LoyaltyDiscount("a", 10.0, "%", "ten", true), LoyaltyDiscount("b", 5.0, "%", "five", true)];
    assert ds[..1] == [ds[0]];
    assert ScanAll(0.0007, ds[..1]).Scan?;
    assert ScanAll(0.0007, ds).stackablePercent == 15.0;
  }

  /** Of a 0.0002 BTC rule and a 20% rule, both non-stackable, the BTC rule
      prices lower (0.0005 against 0.00056) and is the one applied. */
  lemma BestOfTwoExample()
    ensures var ds := [LoyaltyDiscount("a", 0.0002, "BTC", "btc", false), LoyaltyDiscount("b", 20.0, "%", "pct", false)];
            && ScanAll(0.0007, ds).Scan?
            && ScanAll(0.0007, ds).bestCurrency == "BTC"
            && ScanAll(0.0007, ds).messages == ["btc", "pct"]
            && FinalPrice(0.0007, ds) == 0.0005
  {
    var ds := [LoyaltyDiscount("a", 0.0002, "BTC", "btc", false), LoyaltyDiscount("b", 20.0, "%", "pct", false)];
    assert ds[..1] == [ds[0]];
  }

  /** The price before rounding, from the reduced base and the total
      percentage the endpoint has put together after its loop. */
  lemma DiscountedFromParts(base: real, s: Scan, reduced: real, percent: real)
    requires s.Scan?
    requires reduced == if s.bestCurrency == "BTC" then base - s.bestAmount else base
    requires percent == if s.bestCurrency == "%" then s.stackablePercent + s.bestAmount else s.stackablePercent
    ensures reduced * (1.0 - percent / 100.0) == Discounted(base, s)
  {
  }

  lemma ScanAllSnoc(base: real, ds: seq<LoyaltyDiscount>, i: int)
    requires 0 <= i < |ds|
    ensures ScanAll(base, ds[..i + 1]) == Step(base, ScanAll(base, ds[..i]), ds[i])
  {
    assert ds[..i + 1][..i] == ds[..i];
  }

  lemma StepStackable(base: real, s: Scan, d: LoyaltyDiscount)
    requires s.Scan? && d.stackable
    ensures Step(base, s, d)
            == s.(stackables := s.stackables + [LoyaltyDiscountResponseObject(d.message, d.amount, d.currency)],
                  stackablePercent := s.stackablePercent + d.amount)
  {
  }

  lemma StepRule(base: real, s: Scan, d: LoyaltyDiscount, p: real)
    requires s.Scan? && !d.stackable
    requires d.currency == "%" ==> p == base * (1.0 - d.amount / 100.0)
    requires d.currency == "BTC" ==> p == base - d.amount
    requires d.currency == "%" || d.currency == "BTC"
    ensures Step(base, s, d).Scan?
    ensures Step(base, s, d).messages == s.messages + [d.message]
    ensures Step(base, s, d).stackables == s.stackables && Step(base, s, d).stackablePercent == s.stackablePercent
    ensures p < s.bestPrice ==>
              Step(base, s, d).bestPrice == p && Step(base, s, d).bestAmount == d.amount
              && Step(base, s, d).bestCurrency == d.currency
    ensures !(p < s.bestPrice) ==>
              Step(base, s, d).bestPrice == s.bestPrice && Step(base, s, d).bestAmount == s.bestAmount
              && Step(base, s, d).bestCurrency == s.bestCurrency
  {
  }

  /** The loop of `get_price` over the rules, with its six accumulators;
      `InvalidCurrency` where the loop returns early on an unknown currency. */
  method ScanDiscounts(finalPrice: real, loyaltyDiscounts: seq<LoyaltyDiscount>) returns (s: Scan)
    ensures s == ScanAll(finalPrice, loyaltyDiscounts)
    ensures s.Scan? ==> s.bestCurrency in {"", "%", "BTC"}
  {
    var stackableLoyaltyDiscounts: seq<LoyaltyDiscountResponseObject> := [];
    var stackableLoyaltyDiscount := 0.0;
    var nonStackableLoyaltyDiscounts: seq<string> := [];
    var nonStackablePrice := finalPrice;
    var nonStackableLoyaltyDiscount := 0.0;
    var nonStackableLoyaltyDiscountCurrency := "";

    var i := 0;
    while i < |loyaltyDiscounts|
      invariant 0 <= i <= |loyaltyDiscounts|
      invariant ScanAll(finalPrice, loyaltyDiscounts[..i])
                == Scan(stackableLoyaltyDiscounts, stackableLoyaltyDiscount, nonStackableLoyaltyDiscounts,
                        nonStackablePrice, nonStackableLoyaltyDiscount, nonStackableLoyaltyDiscountCurrency)
      invariant nonStackableLoyaltyDiscountCurrency in {"", "%", "BTC"}
    {
      var d := loyaltyDiscounts[i];
      ghost var prev := ScanAll(finalPrice, loyaltyDiscounts[..i]);
      ScanAllSnoc(finalPrice, loyaltyDiscounts, i);
      if d.stackable {
        StepStackable(finalPrice, prev, d);
        stackableLoyaltyDiscounts := stackableLoyaltyDiscounts + [LoyaltyDiscountResponseObject(d.message, d.amount, d.currency)];
        stackableLoyaltyDiscount := stackableLoyaltyDiscount + d.amount;
        i := i + 1;
        continue;
      }
      var priceAfterDiscount;
      if d.currency == "%" {
        priceAfterDiscount := finalPrice * (1.0 - d.amount / 100.0);
      } else if d.currency == "BTC" {
        priceAfterDiscount := finalPrice - d.amount;
      } else {
        assert loyaltyDiscounts == loyaltyDiscounts[..i + 1] + loyaltyDiscounts[i + 1..];
        InvalidStays(finalPrice, loyaltyDiscounts[..i + 1], loyaltyDiscounts[i + 1..]);
        return InvalidCurrency;
      }
      StepRule(finalPrice, prev, d, priceAfterDiscount);
      if priceAfterDiscount < nonStackablePrice {
        nonStackablePrice := priceAfterDiscount;
        nonStackableLoyaltyDiscount := d.amount;
        nonStackableLoyaltyDiscountCurrency := d.currency;
      }
      nonStackableLoyaltyDiscounts := nonStackableLoyaltyDiscounts + [d.message];
      i := i + 1;
    }
    assert loyaltyDiscounts[..i] == loyaltyDiscounts;
    s := Scan(stackableLoyaltyDiscounts, stackableLoyaltyDiscount, nonStackableLoyaltyDiscounts,
              nonStackablePrice, nonStackableLoyaltyDiscount, nonStackableLoyaltyDiscountCurrency);
  }

  /** The endpoint, step by step as the source runs it. */
  method GetPrice(
    amount: u32,
    addresses: Payments.DbResult<seq<string>>,
    walletsCollections: seq<string> -> OwnedCollections,
    discountsFor: seq<CollectionQueryRow> -> Payments.DbResult<seq<LoyaltyDiscount>>,
    domainPrice: real,
    minimumPrice: real
  ) returns (r: PricingResponse)
    ensures r == PriceOf(amount, addresses, walletsCollections, discountsFor, domainPrice, minimumPrice)
    ensures amount == 0 ==> r == BadRequest(ZeroDomainsMessage)
    ensures r.Ok? ==> r.body.finalPrice >= minimumPrice
  {
    if amount == 0 {
      return BadRequest(ZeroDomainsMessage);
    }
    if addresses.Err? {
      return InternalServerError(AddressesFailedMessage);
    }
    var finalPrice := amount as real * domainPrice;
    var owned := walletsCollections(addresses.value);
    if owned.OwnedFailed? {
      return InternalServerError(CollectionsFailedMessage);
    }
    var loyaltyDiscounts := DiscountsOrNone(discountsFor(CollectionQuery(owned.brc20s)));

    var scan := ScanDiscounts(finalPrice, loyaltyDiscounts);
    if scan.InvalidCurrency? {
      return InternalServerError(InvalidDiscountMessage);
    }
    ghost var base := finalPrice;
    var stackableLoyaltyDiscount := scan.stackablePercent;

    match scan.bestCurrency {
      case "" =>
      case "%" =>
        stackableLoyaltyDiscount := stackableLoyaltyDiscount + scan.bestAmount;
      case "BTC" =>
        finalPrice := finalPrice - scan.bestAmount;
      case _ =>
        assert false;
    }

    DiscountedFromParts(base, scan, finalPrice, stackableLoyaltyDiscount);
    finalPrice := finalPrice * (1.0 - stackableLoyaltyDiscount / 100.0);
    finalPrice := Ceil7(finalPrice);

    if finalPrice < minimumPrice {
      return InternalServerError(BelowMinimumMessage);
    }
    r := Ok(PricingResponseObject(
      scan.stackables,
      scan.messages,
      scan.bestAmount,
      scan.bestCurrency,
      finalPrice));
  }
}
