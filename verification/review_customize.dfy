/** The Review & Customize step (components/steps/review-customize.tsx):
    price overrides, quantity edits, removal by position, the discount field
    and the save-then-advance ordering. */
module ReviewCustomize {
  import opened Wrappers
  import Seqs
  import opened QuoteService
  import opened QuoteContext

  // ---- price override ----

  /** `handlePriceUpdate`: the override of the line at `index` becomes the
      parsed price, or the service's base price when the input does not parse
      or parses to zero. Only that override changes. The input is rendered for
      an existing line, so `index` is in range. */
  function HandlePriceUpdate(q: Quote, index: int, parsed: Option<real>): (r: Quote)
    requires 0 <= index < |q.items|
    ensures |r.items| == |q.items|
    ensures forall j :: 0 <= j < |q.items| && j != index ==> r.items[j] == q.items[j]
    ensures r.items[index].(customPrice := q.items[index].customPrice) == q.items[index]
    ensures r.(items := q.items) == q
    ensures parsed.Some? && parsed.value != 0.0 ==> r.items[index].customPrice == parsed
    ensures parsed.None? || parsed == Some(0.0) ==> r.items[index].customPrice == Some(q.items[index].service.basePrice)
  {
    var item := q.items[index];
    q.(items := q.items[index := item.(customPrice := Some(OrElse(parsed, item.service.basePrice)))])
  }

  /** An unusable price input restores the base price even when the line
      had a different override before. */
  lemma PriceFallbackIgnoresPreviousOverride(q: Quote, index: int)
    requires 0 <= index < |q.items|
    requires q.items[index].customPrice == Some(42.0) && q.items[index].service.basePrice == 100.0
    ensures HandlePriceUpdate(q, index, None).items[index].customPrice == Some(100.0)
    ensures EffectivePrice(HandlePriceUpdate(q, index, None).items[index]) == 100.0
  {
  }

  /** The subtotal moves by the change of that one line's total. */
  lemma PriceUpdateSubtotal(q: Quote, index: int, parsed: Option<real>)
    requires 0 <= index < |q.items|
    ensures var item := q.items[index];
            CalculateQuote(HandlePriceUpdate(q, index, parsed)).subtotal
            == CalculateQuote(q).subtotal - LineTotal(item)
               + OrElse(parsed, item.service.basePrice) * item.quantity as real
  {
    var r := HandlePriceUpdate(q, index, parsed);
    Seqs.SumByUpdate(q.items, index, r.items[index], LineTotal);
    assert r.items == q.items[index := r.items[index]];
  }

  // ---- quantity ----

  /** The quantity field: `parseInt(value) || 1`, so an unparseable or zero
      input becomes 1. */
  function QuantityInput(parsed: Option<int>): (r: int)
    ensures parsed.None? || parsed == Some(0) ==> r == 1
    ensures parsed.Some? && parsed.value != 0 ==> r == parsed.value
    ensures r != 0
  {
    match parsed
    case Some(n) => if n != 0 then n else 1
    case None => 1
  }

  /** `handleQuantityUpdate`: a quantity of 0 or less is ignored; otherwise
      the quantity of the line at `index` is replaced and nothing else
      changes. The index is only used for a positive quantity. */
  function HandleQuantityUpdate(q: Quote, index: int, quantity: int): (r: Quote)
    requires quantity > 0 ==> 0 <= index < |q.items|
    ensures quantity <= 0 ==> r == q
    ensures r.(items := q.items) == q
    ensures |r.items| == |q.items|
    ensures forall j :: 0 <= j < |q.items| && j != index ==> r.items[j] == q.items[j]
    ensures quantity > 0 ==> r.items[index].quantity == quantity
    ensures quantity > 0 ==> r.items[index].(quantity := q.items[index].quantity) == q.items[index]
  {
    if quantity <= 0 then q
    else q.(items := q.items[index := q.items[index].(quantity := quantity)])
  }

  /** Every line has a positive quantity. */
  predicate PositiveQuantities(items: seq<QuoteItem>)
  {
    forall i :: 0 <= i < |items| ==> items[i].quantity > 0
  }

  /** Whatever is typed in a quantity field, no line's quantity drops to 0 or
      below. */
  lemma QuantityFieldKeepsPositive(q: Quote, index: int, parsed: Option<int>)
    requires 0 <= index < |q.items|
    requires PositiveQuantities(q.items)
    ensures PositiveQuantities(HandleQuantityUpdate(q, index, QuantityInput(parsed)).items)
  {
  }

  /** A quantity edit changes the item count by the difference. */
  lemma QuantityUpdateItemCount(q: Quote, index: int, quantity: int)
    requires quantity > 0 && 0 <= index < |q.items|
    ensures CalculateQuote(HandleQuantityUpdate(q, index, quantity)).itemCount
            == CalculateQuote(q).itemCount - q.items[index].quantity + quantity
  {
    var r := HandleQuantityUpdate(q, index, quantity);
    var xs := q.items;
    assert xs == xs[..index] + [xs[index]] + xs[index + 1..];
    assert r.items == xs[..index] + [r.items[index]] + xs[index + 1..];
    Seqs.SumIntByAppend(xs[..index] + [xs[index]], xs[index + 1..], Quantity);
    Seqs.SumIntByAppend(xs[..index] + [r.items[index]], xs[index + 1..], Quantity);
    Seqs.SumIntByAppend(xs[..index], [xs[index]], Quantity);
    Seqs.SumIntByAppend(xs[..index], [r.items[index]], Quantity);
    assert [xs[index]][..0] == [];
    assert [r.items[index]][..0] == [];
  }

  // ---- removal ----

  /** `items.filter((_, i) => i !== index)`. */
  function RemoveAt<T>(s: seq<T>, index: int): (r: seq<T>)
    ensures 0 <= index < |s| ==> r == s[..index] + s[index + 1..]
    ensures !(0 <= index < |s|) ==> r == s
  {
    if |s| == 0 then []
    else
      var rest := RemoveAt(s[1..], index - 1);
      if index == 0 then
        assert s[1..] == s[..0] + s[1..];
        rest
      else
        assert 0 < index < |s| ==> s[1..][..index - 1] == s[1..index];
        [s[0]] + rest
  }

  /** `removeItem`: drops the line at `index`; any other index leaves the
      list as it is. */
  function RemoveItem(q: Quote, index: int): (r: Quote)
    ensures r.(items := q.items) == q
    ensures 0 <= index < |q.items| ==> |r.items| == |q.items| - 1
    ensures 0 <= index < |q.items| ==> forall j :: 0 <= j < index ==> r.items[j] == q.items[j]
    ensures 0 <= index < |q.items| ==> forall j :: index <= j < |r.items| ==> r.items[j] == q.items[j + 1]
    ensures !(0 <= index < |q.items|) ==> r == q
  {
    q.(items := RemoveAt(q.items, index))
  }

  /** Removing a line lowers the subtotal by that line's total. */
  lemma RemoveItemSubtotal(q: Quote, index: int)
    requires 0 <= index < |q.items|
    ensures CalculateQuote(RemoveItem(q, index)).subtotal == CalculateQuote(q).subtotal - LineTotal(q.items[index])
  {
    Seqs.SumByRemove(q.items, index, LineTotal);
  }

  // ---- discount ----

  /** The discount field: `parseFloat(value) || 0`, with no clamping to
      [0, 100]. */
  function DiscountInput(parsed: Option<real>): (r: real)
    ensures parsed.None? ==> r == 0.0
    ensures parsed.Some? ==> r == parsed.value
  {
    OrElse(parsed, 0.0)
  }

  /** The discount field's change handler. */
  function HandleDiscountChange(q: Quote, parsed: Option<real>): (r: Quote)
    ensures r.(discount := q.discount) == q
    ensures r.discount == DiscountInput(parsed)
  {
    q.(discount := DiscountInput(parsed))
  }

  /** Because the discount is not clamped, a typed 150% turns a subtotal of
      100 into a total of -50. */
  lemma DiscountNotClamped(q: Quote)
    requires CalculateQuote(q).subtotal == 100.0
    ensures HandleDiscountChange(q, Some(150.0)).discount == 150.0
    ensures CalculateQuote(HandleDiscountChange(q, Some(150.0))).total == -50.0
  {
    var r := HandleDiscountChange(q, Some(150.0));
    assert CalculateQuote(r).subtotal == CalculateQuote(q).subtotal;
  }

  // ---- navigation ----

  /** `handleContinue`: the step becomes 4 only after the save succeeds; a
      failed save leaves the step where it was. */
  function HandleContinue(s: Session, saved: bool): (r: Session)
    ensures r.quote == s.quote
    ensures saved ==> r.currentStep == 4
    ensures !saved ==> r == s
  {
    if saved then s.(currentStep := 4) else s
  }
}
