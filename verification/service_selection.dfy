/** The Choose Services step (components/steps/service-selection.tsx): the
    category list, the search filter, and the absolute-quantity upsert of
    line items. */
module ServiceSelection {
  import opened Wrappers
  import Seqs
  import Text
  import opened Catalog
  import opened QuoteService
  import opened QuoteContext

  // ---- categories and search ----

  /** `services.map((s) => s.category)`. */
  function CategoryList(services: seq<Service>): (r: seq<string>)
    ensures |r| == |services|
    ensures forall i :: 0 <= i < |services| ==> r[i] == services[i].category
  {
    seq(|services|, i requires 0 <= i < |services| => services[i].category)
  }

  /** `categories`: "All" followed by the distinct categories in ascending
      order. */
  function Categories(services: seq<Service>): (r: seq<string>)
    ensures |r| >= 1 && r[0] == "All"
    ensures Text.StrictlySorted(r[1..])
    ensures forall c :: c in r[1..] <==> exists i :: 0 <= i < |services| && services[i].category == c
  {
    var cats := CategoryList(services);
    var sorted := Text.SortStrings(Text.Dedup(cats));
    var r := ["All"] + sorted;
    assert r[1..] == sorted;
    assert forall c :: c in sorted <==> c in cats;
    r
  }

  /** The list is free of duplicates exactly when no service uses the
      category name "All"; otherwise "All" appears twice. */
  lemma CategoriesDistinctIff(services: seq<Service>)
    ensures Text.Distinct(Categories(services))
            <==> forall i :: 0 <= i < |services| ==> services[i].category != "All"
  {
    var r := Categories(services);
    var tail := r[1..];
    assert forall i, j :: 0 <= i < j < |tail| ==> tail[i] != tail[j] by {
      forall i, j | 0 <= i < j < |tail| ensures tail[i] != tail[j] {
        if tail[i] == tail[j] {
          Text.LexLessIrreflexive(tail[i]);
        }
      }
    }
    if forall i :: 0 <= i < |services| ==> services[i].category != "All" {
      assert "All" !in tail;
      forall i, j | 0 <= i < j < |r| ensures r[i] != r[j] {
        if i > 0 {
          assert r[i] == tail[i - 1] && r[j] == tail[j - 1];
        } else {
          assert r[j] == tail[j - 1];
        }
      }
    } else {
      var k :| 0 <= k < |services| && services[k].category == "All";
      assert "All" in tail;
      var m :| 0 <= m < |tail| && tail[m] == "All";
      assert r[0] == r[m + 1];
    }
  }

  /** The search and category test of one service. */
  predicate MatchesService(s: Service, search: string, category: string)
  {
    && (Text.ContainsIgnoringCase(s.name, search) || Text.ContainsIgnoringCase(s.description, search))
    && (category == "All" || s.category == category)
  }

  /** `filteredServices`: the services matching the search in their name or
      description and in the selected category, in list order, each
      occurrence kept. */
  function FilterServices(services: seq<Service>, search: string, category: string): (r: seq<Service>)
    ensures forall i :: 0 <= i < |r| ==> r[i] in services && MatchesService(r[i], search, category)
    ensures forall i :: 0 <= i < |services| && MatchesService(services[i], search, category) ==> services[i] in r
    ensures forall s :: multiset(r)[s] == if MatchesService(s, search, category) then multiset(services)[s] else 0
  {
    Seqs.FilterComplete(services, s => MatchesService(s, search, category));
    Seqs.FilterCount(services, s => MatchesService(s, search, category));
    Seqs.Filter(services, s => MatchesService(s, search, category))
  }

  /** An empty search in category "All" lists every service, in order. */
  lemma FilterServicesShowsAll(services: seq<Service>)
    ensures FilterServices(services, "", "All") == services
  {
    forall i | 0 <= i < |services| ensures MatchesService(services[i], "", "All") {
      Text.ContainsEmpty(Text.Lower(services[i].name));
    }
    Seqs.FilterKeepsAll(services, s => MatchesService(s, "", "All"));
  }

  /** The filtered list keeps the order of the service list. */
  lemma FilterServicesPreservesOrder(services: seq<Service>, search: string, category: string)
    ensures Seqs.SubsequenceOf(FilterServices(services, search, category), services)
  {
    Seqs.FilterIsSubsequence(services, s => MatchesService(s, search, category));
  }

  // ---- line items ----

  /** No two line items refer to the same service id. */
  predicate UniqueServiceIds(items: seq<QuoteItem>)
  {
    forall i, j :: 0 <= i < j < |items| ==> items[i].service.id != items[j].service.id
  }

  /** Every line is charged at its service's base price. */
  predicate PricedAtBase(items: seq<QuoteItem>)
  {
    forall i :: 0 <= i < |items| ==> EffectivePrice(items[i]) == items[i].service.basePrice
  }

  /** `getServiceQuantity`: the quantity of the first item for the service,
      or 0 when there is none. */
  function GetServiceQuantity(items: seq<QuoteItem>, id: string): (r: int)
    ensures (forall i :: 0 <= i < |items| ==> items[i].service.id != id) ==> r == 0
    ensures forall i ::
              (0 <= i < |items| && items[i].service.id == id
               && (forall j :: 0 <= j < i ==> items[j].service.id != id)) ==> r == items[i].quantity
  {
    if |items| == 0 then 0
    else if items[0].service.id == id then items[0].quantity
    else GetServiceQuantity(items[1..], id)
  }

  /** The items whose service id differs from `id`, in their order. */
  function RemoveService(items: seq<QuoteItem>, id: string): seq<QuoteItem>
  {
    Seqs.Filter(items, (it: QuoteItem) => it.service.id != id)
  }

  /** The line `updateServiceQuantity` creates: the base price is copied
      into the override. */
  function FreshItem(service: Service, quantity: int): QuoteItem
  {
    QuoteItem(service, quantity, Some(service.basePrice), None)
  }

  /** The item list `updateServiceQuantity` computes: every item for the
      service is dropped, and for a positive quantity one fresh item goes to
      the end. */
  function UpsertItem(items: seq<QuoteItem>, service: Service, quantity: int): (r: seq<QuoteItem>)
    ensures quantity <= 0 ==> forall i :: 0 <= i < |r| ==> r[i].service.id != service.id
    ensures quantity <= 0 ==> r == RemoveService(items, service.id)
    ensures quantity <= 0 && (forall i :: 0 <= i < |items| ==> items[i].service.id != service.id) ==> r == items
    ensures quantity > 0 ==> |r| >= 1 && r[|r| - 1] == FreshItem(service, quantity)
    ensures quantity > 0 ==> forall i :: 0 <= i < |r| - 1 ==> r[i].service.id != service.id
    ensures quantity > 0 ==> r[..|r| - 1] == RemoveService(items, service.id)
    ensures UniqueServiceIds(items) ==> UniqueServiceIds(r)
    ensures PricedAtBase(items) ==> PricedAtBase(r)
  {
    var others := RemoveService(items, service.id);
    RemoveAbsentService(items, service.id);
    FilterKeepsUnique(items, service.id);
    if quantity > 0 then
      var r := others + [FreshItem(service, quantity)];
      assert r[..|r| - 1] == others;
      r
    else others
  }

  lemma RemoveAbsentService(items: seq<QuoteItem>, id: string)
    ensures (forall i :: 0 <= i < |items| ==> items[i].service.id != id) ==> RemoveService(items, id) == items
  {
    if forall i :: 0 <= i < |items| ==> items[i].service.id != id {
      Seqs.FilterKeepsAll(items, (it: QuoteItem) => it.service.id != id);
    }
  }

  lemma {:induction false} FilterKeepsUnique(items: seq<QuoteItem>, id: string)
    ensures UniqueServiceIds(items) ==> UniqueServiceIds(RemoveService(items, id))
  {
    if |items| > 0 && UniqueServiceIds(items) {
      FilterKeepsUnique(items[1..], id);
      var rest := RemoveService(items[1..], id);
      assert forall k :: 0 <= k < |rest| ==> rest[k] in items[1..];
      assert forall k :: 0 <= k < |rest| ==> rest[k].service.id != items[0].service.id;
    }
  }

  /** `updateServiceQuantity`: replaces the quote's items with the upsert;
      nothing else in the quote changes. */
  function UpdateServiceQuantity(q: Quote, service: Service, quantity: int): (r: Quote)
    ensures r.(items := q.items) == q
    ensures GetServiceQuantity(r.items, service.id) == if quantity > 0 then quantity else 0
  {
    var items := UpsertItem(q.items, service, quantity);
    q.(items := items)
  }

  /** The upsert leaves the quantity of every other service as it was. */
  lemma UpdateKeepsOtherQuantities(q: Quote, service: Service, quantity: int, id: string)
    requires id != service.id
    ensures GetServiceQuantity(UpdateServiceQuantity(q, service, quantity).items, id)
            == GetServiceQuantity(q.items, id)
  {
    var others := RemoveService(q.items, service.id);
    FilterKeepsQuantity(q.items, service.id, id);
    if quantity > 0 {
      QuantityIgnoresOtherTail(others, FreshItem(service, quantity), id);
    }
  }

  lemma {:induction false} FilterKeepsQuantity(items: seq<QuoteItem>, removed: string, id: string)
    requires id != removed
    ensures GetServiceQuantity(RemoveService(items, removed), id) == GetServiceQuantity(items, id)
  {
    if |items| > 0 {
      FilterKeepsQuantity(items[1..], removed, id);
    }
  }

  lemma {:induction false} QuantityIgnoresOtherTail(items: seq<QuoteItem>, last: QuoteItem, id: string)
    requires last.service.id != id
    ensures GetServiceQuantity(items + [last], id) == GetServiceQuantity(items, id)
  {
    if |items| > 0 {
      assert (items + [last])[1..] == items[1..] + [last];
      QuantityIgnoresOtherTail(items[1..], last, id);
    } else {
      assert items + [last] == [last];
    }
  }

  /** One press of the quantity controls, as an absolute quantity. */
  datatype QuantityRequest = QuantityRequest(service: Service, quantity: int)

  /** A series of quantity changes, applied in order. */
  function ApplyRequests(q: Quote, reqs: seq<QuantityRequest>): Quote
  {
    if |reqs| == 0 then q
    else
      var last := reqs[|reqs| - 1];
      UpdateServiceQuantity(ApplyRequests(q, reqs[..|reqs| - 1]), last.service, last.quantity)
  }

  /** Any series of quantity changes keeps at most one item per service and
      every line at its base price, given a start that has both. */
  lemma {:induction false} ApplyRequestsInvariant(q: Quote, reqs: seq<QuantityRequest>)
    requires UniqueServiceIds(q.items) && PricedAtBase(q.items)
    ensures UniqueServiceIds(ApplyRequests(q, reqs).items)
    ensures PricedAtBase(ApplyRequests(q, reqs).items)
  {
    if |reqs| > 0 {
      ApplyRequestsInvariant(q, reqs[..|reqs| - 1]);
    }
  }

  // ---- totals shown on this step ----

  /** `service.basePrice * quantity`, ignoring any override. */
  function BaseLineTotal(item: QuoteItem): real
  {
    item.service.basePrice * item.quantity as real
  }

  /** `getTotalItems`: the sum of the quantities, which is the item count of
      the quote calculation. */
  function GetTotalItems(q: Quote): (r: int)
    ensures r == CalculateQuote(q).itemCount
  {
    Seqs.SumIntBy(q.items, Quantity)
  }

  /** `getSubtotal`: the sum of base price times quantity. */
  function GetSubtotal(q: Quote): real
  {
    Seqs.SumBy(q.items, BaseLineTotal)
  }

  /** While every line is at its base price, this step's subtotal is the
      subtotal of the quote calculation. */
  lemma SubtotalsAgree(q: Quote)
    requires PricedAtBase(q.items)
    ensures GetSubtotal(q) == CalculateQuote(q).subtotal
  {
    Seqs.SumByPointwise(q.items, BaseLineTotal, LineTotal);
  }

  /** A wizard that has only used this step's controls since the initial
      quote shows the same subtotal here as on the later steps. */
  lemma SubtotalsAgreeAfterRequests(now: nat, reqs: seq<QuantityRequest>)
    ensures GetSubtotal(ApplyRequests(InitialQuote(now), reqs))
            == CalculateQuote(ApplyRequests(InitialQuote(now), reqs)).subtotal
  {
    ApplyRequestsInvariant(InitialQuote(now), reqs);
    SubtotalsAgree(ApplyRequests(InitialQuote(now), reqs));
  }

  /** Once a price has been overridden, this step's subtotal no longer
      matches the calculation: one service of base price 100 overridden to
      80 shows 100 here and 80 elsewhere. */
  lemma SubtotalIgnoresOverride(q: Quote, s: Service)
    requires s.basePrice == 100.0
    requires q.items == [QuoteItem(s, 1, Some(80.0), None)]
    ensures GetSubtotal(q) == 100.0 && CalculateQuote(q).subtotal == 80.0
  {
    assert q.items[..0] == [];
    assert LineTotal(q.items[0]) == 80.0;
    assert BaseLineTotal(q.items[0]) == 100.0;
    assert Seqs.SumBy(q.items, LineTotal) == Seqs.SumBy(q.items[..0], LineTotal) + LineTotal(q.items[0]);
    assert Seqs.SumBy(q.items, BaseLineTotal) == Seqs.SumBy(q.items[..0], BaseLineTotal) + BaseLineTotal(q.items[0]);
  }

  /** Changing a quantity here discards a price override on that service. */
  lemma UpdateDiscardsOverride(q: Quote, service: Service, quantity: int)
    requires quantity > 0
    ensures var r := UpdateServiceQuantity(q, service, quantity).items;
            r[|r| - 1].customPrice == Some(service.basePrice)
  {
  }

  // ---- controls ----

  /** The quantity the minus control requests: `Math.max(0, quantity - 1)`. */
  function MinusTarget(quantity: int): (r: int)
    ensures r >= 0
    ensures quantity >= 1 ==> r == quantity - 1
  {
    if quantity - 1 > 0 then quantity - 1 else 0
  }

  /** The minus control, which is disabled while the quantity is 0. */
  function PressMinus(q: Quote, service: Service): Quote
  {
    var quantity := GetServiceQuantity(q.items, service.id);
    if quantity == 0 then q else UpdateServiceQuantity(q, service, MinusTarget(quantity))
  }

  /** The plus control. */
  function PressPlus(q: Quote, service: Service): Quote
  {
    UpdateServiceQuantity(q, service, GetServiceQuantity(q.items, service.id) + 1)
  }

  /** Plus then minus restores the displayed quantity. */
  lemma PlusThenMinus(q: Quote, service: Service)
    requires GetServiceQuantity(q.items, service.id) >= 0
    ensures GetServiceQuantity(PressMinus(PressPlus(q, service), service).items, service.id)
            == GetServiceQuantity(q.items, service.id)
  {
  }

  /** `handleContinue`: refused without items; otherwise the step becomes 3
      only when the save succeeds. The quote is never changed. */
  function HandleContinue(s: Session, saved: bool): (r: Session)
    ensures r.quote == s.quote
    ensures |s.quote.items| == 0 ==> r == s
    ensures r.currentStep == (if |s.quote.items| > 0 && saved then 3 else s.currentStep)
  {
    if |s.quote.items| == 0 then s
    else if saved then s.(currentStep := 3)
    else s
  }
}
