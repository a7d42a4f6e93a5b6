/** The wizard's shared state (components/quote-context.tsx): the current
    step, the quote under construction, its initial value and the
    partial-record merge `updateQuote`. */
module QuoteContext {
  import opened Wrappers
  import opened Directory
  import opened QuoteService

  /** The state every step reads and replaces. */
  datatype Session = Session(currentStep: int, quote: Quote)

  /** The quote the provider starts with: a draft with no client, no items,
      no discount, empty notes and thirty days of validity. The wizard's quote
      carries no creation, update or sent stamps. */
  function InitialQuote(now: nat): (q: Quote)
    ensures q.id == QuoteId(now)
    ensures q.client == None && q.items == [] && q.discount == 0.0 && q.notes == ""
    ensures q.status == Draft
    ensures q.validUntil == now + 30 * 24 * 60 * 60 * 1000
    ensures q.createdAt == None && q.updatedAt == None && q.sentAt == None
  {
    Quote(QuoteId(now), None, [], 0.0, "", now + ThirtyDaysMs, Draft, None, None, None)
  }

  /** The provider's initial state: step 0 with the initial quote. */
  function InitialSession(now: nat): (s: Session)
    ensures s.currentStep == 0
    ensures s.quote.status == Draft && s.quote.items == [] && s.quote.client == None
  {
    Session(0, InitialQuote(now))
  }

  /** A `Partial<Quote>`: `None` is a key that is absent from the update. For
      the optional fields, `Some(None)` is a key present with the value
      `undefined`, which the spread copies over the previous value. */
  datatype QuotePatch = QuotePatch(
    id: Option<string>,
    client: Option<Option<Client>>,
    items: Option<seq<QuoteItem>>,
    discount: Option<real>,
    notes: Option<string>,
    validUntil: Option<int>,
    status: Option<Status>,
    createdAt: Option<Option<int>>,
    updatedAt: Option<Option<int>>,
    sentAt: Option<Option<int>>)

  /** The update `{}`. */
  const EmptyPatch: QuotePatch := QuotePatch(None, None, None, None, None, None, None, None, None, None)

  /** Every field the update carries has the update's value in `q`. */
  predicate TakesPresent(q: Quote, u: QuotePatch)
  {
    && (u.id.Some? ==> q.id == u.id.value)
    && (u.client.Some? ==> q.client == u.client.value)
    && (u.items.Some? ==> q.items == u.items.value)
    && (u.discount.Some? ==> q.discount == u.discount.value)
    && (u.notes.Some? ==> q.notes == u.notes.value)
    && (u.validUntil.Some? ==> q.validUntil == u.validUntil.value)
    && (u.status.Some? ==> q.status == u.status.value)
    && (u.createdAt.Some? ==> q.createdAt == u.createdAt.value)
    && (u.updatedAt.Some? ==> q.updatedAt == u.updatedAt.value)
    && (u.sentAt.Some? ==> q.sentAt == u.sentAt.value)
  }

  /** Every field the update lacks is the same in `q` as in `prev`. */
  predicate KeepsAbsent(q: Quote, prev: Quote, u: QuotePatch)
  {
    && (u.id.None? ==> q.id == prev.id)
    && (u.client.None? ==> q.client == prev.client)
    && (u.items.None? ==> q.items == prev.items)
    && (u.discount.None? ==> q.discount == prev.discount)
    && (u.notes.None? ==> q.notes == prev.notes)
    && (u.validUntil.None? ==> q.validUntil == prev.validUntil)
    && (u.status.None? ==> q.status == prev.status)
    && (u.createdAt.None? ==> q.createdAt == prev.createdAt)
    && (u.updatedAt.None? ==> q.updatedAt == prev.updatedAt)
    && (u.sentAt.None? ==> q.sentAt == prev.sentAt)
  }

  /** `updateQuote`: `{ ...prev, ...updates }`. */
  function Merge(prev: Quote, u: QuotePatch): (r: Quote)
    ensures TakesPresent(r, u)
    ensures KeepsAbsent(r, prev, u)
  {
    Quote(
      u.id.GetOr(prev.id),
      u.client.GetOr(prev.client),
      u.items.GetOr(prev.items),
      u.discount.GetOr(prev.discount),
      u.notes.GetOr(prev.notes),
      u.validUntil.GetOr(prev.validUntil),
      u.status.GetOr(prev.status),
      u.createdAt.GetOr(prev.createdAt),
      u.updatedAt.GetOr(prev.updatedAt),
      u.sentAt.GetOr(prev.sentAt))
  }

  /** The two properties pin the merge down: any quote that takes the
      present fields and keeps the absent ones is the merge. */
  lemma MergeUnique(prev: Quote, u: QuotePatch, q: Quote)
    requires TakesPresent(q, u) && KeepsAbsent(q, prev, u)
    ensures q == Merge(prev, u)
  {
  }

  /** The empty update leaves the quote unchanged. */
  lemma MergeEmpty(q: Quote)
    ensures Merge(q, EmptyPatch) == q
  {
  }

  /** Later updates win: merging `a` then `b` is merging their combination. */
  function Combine(a: QuotePatch, b: QuotePatch): QuotePatch
  {
    QuotePatch(
      if b.id.Some? then b.id else a.id,
      if b.client.Some? then b.client else a.client,
      if b.items.Some? then b.items else a.items,
      if b.discount.Some? then b.discount else a.discount,
      if b.notes.Some? then b.notes else a.notes,
      if b.validUntil.Some? then b.validUntil else a.validUntil,
      if b.status.Some? then b.status else a.status,
      if b.createdAt.Some? then b.createdAt else a.createdAt,
      if b.updatedAt.Some? then b.updatedAt else a.updatedAt,
      if b.sentAt.Some? then b.sentAt else a.sentAt)
  }

  lemma MergeCompose(q: Quote, a: QuotePatch, b: QuotePatch)
    ensures Merge(Merge(q, a), b) == Merge(q, Combine(a, b))
  {
  }

  /** Applying the same update twice is applying it once. */
  lemma MergeIdempotent(q: Quote, u: QuotePatch)
    ensures Merge(Merge(q, u), u) == Merge(q, u)
  {
  }
}
