/** The quote service (services/quote-service.ts): quote records, the pure
    totals calculation and the id-keyed quote store. */
module QuoteService {
  import opened Wrappers
  import Seqs
  import Text
  import opened Catalog
  import opened Directory

  datatype Status = Draft | Sent | Accepted | Rejected | Expired

  /** One line of a quote. `customPrice` is the optional price override. */
  datatype QuoteItem = QuoteItem(
    service: Service,
    quantity: int,
    customPrice: Option<real>,
    notes: Option<string>)

  /** A quote. Dates are milliseconds since the epoch; the creation and update
      stamps are optional because the wizard's in-memory quote has none. */
  datatype Quote = Quote(
    id: string,
    client: Option<Client>,
    items: seq<QuoteItem>,
    discount: real,
    notes: string,
    validUntil: int,
    status: Status,
    createdAt: Option<int>,
    updatedAt: Option<int>,
    sentAt: Option<int>)

  datatype QuoteCalculation = QuoteCalculation(
    subtotal: real,
    discountAmount: real,
    total: real,
    itemCount: int)

  /** Thirty days in milliseconds: 30 * 24 * 60 * 60 * 1000. */
  const ThirtyDaysMs: int := 2_592_000_000

  /** JavaScript's `price || fallback` on numbers: an absent or zero price
      is falsy and yields the fallback. */
  function OrElse(price: Option<real>, fallback: real): real
  {
    match price
    case Some(p) => if p != 0.0 then p else fallback
    case None => fallback
  }

  /** `customPrice || service.basePrice`. */
  function EffectivePrice(item: QuoteItem): real
  {
    OrElse(item.customPrice, item.service.basePrice)
  }

  /** The price charged for one line. */
  function LineTotal(item: QuoteItem): real
  {
    EffectivePrice(item) * item.quantity as real
  }

  function Quantity(item: QuoteItem): int
  {
    item.quantity
  }

  /** `calculateQuote`: folds the line totals and quantities, then applies
      the discount percentage. */
  function CalculateQuote(q: Quote): (r: QuoteCalculation)
    ensures r.total == r.subtotal - r.discountAmount
    ensures r.discountAmount == r.subtotal * (q.discount / 100.0)
    ensures |q.items| == 0 ==> r == QuoteCalculation(0.0, 0.0, 0.0, 0)
  {
    var subtotal := Seqs.SumBy(q.items, LineTotal);
    var discountAmount := subtotal * (q.discount / 100.0);
    QuoteCalculation(subtotal, discountAmount, subtotal - discountAmount, Seqs.SumIntBy(q.items, Quantity))
  }

  /** Appending a line adds its line total to the subtotal and its quantity
      (not 1) to the item count. */
  lemma CalculateAppend(q: Quote, item: QuoteItem)
    ensures CalculateQuote(q.(items := q.items + [item])).subtotal
            == CalculateQuote(q).subtotal + EffectivePrice(item) * item.quantity as real
    ensures CalculateQuote(q.(items := q.items + [item])).itemCount
            == CalculateQuote(q).itemCount + item.quantity
  {
    var items' := q.items + [item];
    assert items'[..|items'| - 1] == q.items;
  }

  /** The subtotal and item count do not depend on the order of the lines. */
  lemma CalculateSwapInvariant(q: Quote, a: seq<QuoteItem>, b: seq<QuoteItem>)
    requires q.items == a + b
    ensures CalculateQuote(q.(items := b + a)).subtotal == CalculateQuote(q).subtotal
    ensures CalculateQuote(q.(items := b + a)).itemCount == CalculateQuote(q).itemCount
  {
    Seqs.SumByAppend(a, b, LineTotal);
    Seqs.SumByAppend(b, a, LineTotal);
    Seqs.SumIntByAppend(a, b, Quantity);
    Seqs.SumIntByAppend(b, a, Quantity);
    assert CalculateQuote(q.(items := b + a)).subtotal == Seqs.SumBy(b + a, LineTotal);
    assert CalculateQuote(q).subtotal == Seqs.SumBy(a + b, LineTotal);
  }

  /** The item count is the total quantity, so it can differ from the number
      of lines: one line of quantity 3 counts as 3. */
  lemma ItemCountIsQuantitySum(q: Quote, item: QuoteItem)
    requires q.items == [item]
    ensures CalculateQuote(q).itemCount == item.quantity
  {
    assert q.items[..0] == [];
    assert Seqs.SumIntBy(q.items, Quantity) == Seqs.SumIntBy(q.items[..0], Quantity) + Quantity(item);
  }

  /** With non-negative effective prices and quantities and a discount in
      [0, 100], the total lies between 0 and the subtotal. */
  lemma TotalBounds(q: Quote)
    requires forall i :: 0 <= i < |q.items| ==> EffectivePrice(q.items[i]) >= 0.0 && q.items[i].quantity >= 0
    requires 0.0 <= q.discount <= 100.0
    ensures 0.0 <= CalculateQuote(q).total <= CalculateQuote(q).subtotal
  {
    forall i | 0 <= i < |q.items| ensures LineTotal(q.items[i]) >= 0.0 {
      NonNegativeProduct(EffectivePrice(q.items[i]), q.items[i].quantity as real);
    }
    Seqs.SumByNonNegative(q.items, LineTotal);
    var c := CalculateQuote(q);
    assert c.subtotal == Seqs.SumBy(q.items, LineTotal);
    assert c.subtotal >= 0.0;
    DiscountWithinSubtotal(c.subtotal, q.discount, c.discountAmount);
  }

  lemma NonNegativeProduct(a: real, b: real)
    requires a >= 0.0 && b >= 0.0
    ensures a * b >= 0.0
  {
  }

  lemma DiscountWithinSubtotal(subtotal: real, discount: real, amount: real)
    requires subtotal >= 0.0 && 0.0 <= discount <= 100.0
    requires amount == subtotal * (discount / 100.0)
    ensures 0.0 <= amount <= subtotal
  {
    var f := discount / 100.0;
    NonNegativeProduct(subtotal, f);
    NonNegativeProduct(subtotal, 1.0 - f);
    assert subtotal * (1.0 - f) == subtotal - subtotal * f;
  }

  /** The worked example: base prices 5000 x 1 and 2500 x 2 with a 10%
      discount give 10000, 1000 and 9000. */
  lemma CalculateExample(q: Quote, s1: Service, s2: Service)
    requires s1.basePrice == 5000.0 && s2.basePrice == 2500.0
    requires q.items == [QuoteItem(s1, 1, None, None), QuoteItem(s2, 2, None, None)]
    requires q.discount == 10.0
    ensures CalculateQuote(q) == QuoteCalculation(10000.0, 1000.0, 9000.0, 3)
  {
    var items := q.items;
    assert items[..1] == [items[0]];
    assert items[..1][..0] == [];
    assert LineTotal(items[0]) == 5000.0;
    assert LineTotal(items[1]) == 5000.0;
    assert Seqs.SumBy(items[..1], LineTotal) == 5000.0;
    assert Seqs.SumIntBy(items[..1], Quantity) == 1;
    assert Seqs.SumBy(items, LineTotal) == 10000.0;
    assert Seqs.SumIntBy(items, Quantity) == 3;
  }

  // ---- the quote store ----

  /** The `mockQuotes` array. */
  type QuoteStore = seq<Quote>

  datatype StoreError = QuoteNotFound

  /** The text of the error `updateQuote` throws. */
  function ErrorMessage(e: StoreError): string
  {
    match e
    case QuoteNotFound => "Quote not found"
  }

  /** The id the source derives from the clock: `quote-<now>`. */
  function QuoteId(now: nat): string
  {
    "quote-" + Text.DecimalString(now)
  }

  /** Quotes created at different instants get different ids. */
  lemma QuoteIdsDistinct(t1: nat, t2: nat)
    ensures QuoteId(t1) == QuoteId(t2) <==> t1 == t2
  {
    if QuoteId(t1) == QuoteId(t2) {
      Text.PrefixedDecimalInjective("quote-", t1, t2);
    }
  }

  /** `createQuote`: a fresh draft, also appended to the store. The clock is
      read once, at `now`. */
  function CreateQuote(store: QuoteStore, now: nat): (r: (QuoteStore, Quote))
    ensures r.1.id == QuoteId(now)
    ensures r.1.status == Draft && r.1.items == [] && r.1.client == None
    ensures r.1.discount == 0.0 && r.1.notes == ""
    ensures r.1.createdAt == Some(now) && r.1.updatedAt == r.1.createdAt && r.1.sentAt == None
    ensures r.1.validUntil == now + 30 * 24 * 60 * 60 * 1000
    ensures |r.0| == |store| + 1 && r.0[..|store|] == store && r.0[|store|] == r.1
  {
    var q := Quote(QuoteId(now), None, [], 0.0, "", now + ThirtyDaysMs, Draft,
                   Some(now), Some(now), None);
    (store + [q], q)
  }

  /** `findIndex`: the position of the first quote with the given id. */
  function FindIndex(store: QuoteStore, id: string): (r: Option<nat>)
    ensures r.Some? ==> r.value < |store| && store[r.value].id == id
    ensures r.Some? ==> forall j :: 0 <= j < r.value ==> store[j].id != id
    ensures r.None? <==> forall j :: 0 <= j < |store| ==> store[j].id != id
  {
    if |store| == 0 then None
    else if store[0].id == id then Some(0)
    else match FindIndex(store[1..], id)
      case None => None
      case Some(k) => Some(k + 1)
  }

  /** `updateQuote`: replaces the first stored quote with the same id by the
      given quote with a refreshed `updatedAt`; fails when no stored quote has
      that id, leaving the store as it was. */
  function UpdateQuote(store: QuoteStore, quote: Quote, now: nat): (r: Result<(QuoteStore, Quote), StoreError>)
    ensures r.Failure? <==> forall j :: 0 <= j < |store| ==> store[j].id != quote.id
    ensures r.Failure? ==> r.error == QuoteNotFound
    ensures r.Success? ==> r.value.1 == quote.(updatedAt := Some(now))
    ensures r.Success? ==> |r.value.0| == |store|
    ensures r.Success? ==>
              exists i :: 0 <= i < |store| && store[i].id == quote.id
                && (forall j :: 0 <= j < i ==> store[j].id != quote.id)
                && r.value.0 == store[i := r.value.1]
  {
    match FindIndex(store, quote.id)
    case None => Failure(QuoteNotFound)
    case Some(i) =>
      var updated := quote.(updatedAt := Some(now));
      Success((store[i := updated], updated))
  }

  /** `getQuoteById`: the first stored quote with the id, or null. */
  function GetQuoteById(store: QuoteStore, id: string): (r: Option<Quote>)
    ensures r.Some? ==> r.value.id == id && r.value in store
    ensures r.None? <==> forall j :: 0 <= j < |store| ==> store[j].id != id
    ensures r.Some? ==>
              exists i :: 0 <= i < |store| && store[i] == r.value
                && forall j :: 0 <= j < i ==> store[j].id != id
  {
    match FindIndex(store, id)
    case None => None
    case Some(i) => Some(store[i])
  }

  /** A quote is found right after it is created; when no earlier quote
      shares its id, the one found is the new quote. */
  lemma CreateThenGet(store: QuoteStore, now: nat)
    ensures GetQuoteById(CreateQuote(store, now).0, QuoteId(now)).Some?
    ensures (forall j :: 0 <= j < |store| ==> store[j].id != QuoteId(now))
            ==> GetQuoteById(CreateQuote(store, now).0, QuoteId(now)) == Some(CreateQuote(store, now).1)
  {
    var (s', q) := CreateQuote(store, now);
    assert s'[|store|].id == QuoteId(now);
  }

  /** When every stored quote was created (at the instant in `created`)
      strictly before `now`, the new quote's id is fresh, so getQuoteById
      returns exactly the new quote. */
  lemma CreateFreshId(store: QuoteStore, created: seq<nat>, now: nat)
    requires |created| == |store|
    requires forall j :: 0 <= j < |store| ==> created[j] < now && store[j].id == QuoteId(created[j])
    ensures forall j :: 0 <= j < |store| ==> store[j].id != QuoteId(now)
    ensures GetQuoteById(CreateQuote(store, now).0, QuoteId(now)) == Some(CreateQuote(store, now).1)
  {
    forall j | 0 <= j < |store| ensures store[j].id != QuoteId(now) {
      QuoteIdsDistinct(created[j], now);
    }
    CreateThenGet(store, now);
  }

  /** Saving a freshly created quote (with any edits that keep its id)
      succeeds, and a later save time gives `updatedAt >= createdAt`. */
  lemma CreateThenSave(store: QuoteStore, now: nat, edited: Quote, later: nat)
    requires edited.id == CreateQuote(store, now).1.id
    requires edited.createdAt == CreateQuote(store, now).1.createdAt
    requires now <= later
    ensures UpdateQuote(CreateQuote(store, now).0, edited, later).Success?
    ensures UpdateQuote(CreateQuote(store, now).0, edited, later).value.1.id == QuoteId(now)
    ensures UpdateQuote(CreateQuote(store, now).0, edited, later).value.1.updatedAt.value
            >= UpdateQuote(CreateQuote(store, now).0, edited, later).value.1.createdAt.value
  {
    var (s', q) := CreateQuote(store, now);
    assert s'[|store|].id == edited.id;
  }

  /** After a successful save, getQuoteById returns the saved quote. */
  lemma UpdateThenGet(store: QuoteStore, quote: Quote, now: nat)
    requires UpdateQuote(store, quote, now).Success?
    ensures GetQuoteById(UpdateQuote(store, quote, now).value.0, quote.id)
            == Some(UpdateQuote(store, quote, now).value.1)
  {
    var (s', q') := UpdateQuote(store, quote, now).value;
    var i :| 0 <= i < |store| && store[i].id == quote.id
              && (forall j :: 0 <= j < i ==> store[j].id != quote.id)
              && s' == store[i := q'];
    var found := FindIndex(s', quote.id);
    assert s'[i].id == quote.id;
    assert found == Some(i);
  }

  /** Saving a quote leaves every other slot of the store unchanged. */
  lemma UpdateKeepsOthers(store: QuoteStore, quote: Quote, now: nat, j: int)
    requires UpdateQuote(store, quote, now).Success?
    requires 0 <= j < |store| && store[j].id != quote.id
    ensures UpdateQuote(store, quote, now).value.0[j] == store[j]
  {
  }
}
