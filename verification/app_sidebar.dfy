/** The sidebar's New Quote action (components/app-sidebar.tsx). */
module AppSidebar {
  import opened Wrappers
  import opened QuoteService
  import opened QuoteContext

  /** The partial update `handleNewQuote` sends: a clock-derived id, the
      client key present with `undefined`, empty items, zero discount, empty
      notes, thirty days of validity and draft status. */
  function NewQuotePatch(now: nat): QuotePatch
  {
    QuotePatch(Some(QuoteId(now)), Some(None), Some([]), Some(0.0), Some(""),
               Some(now + ThirtyDaysMs), Some(Draft), None, None, None)
  }

  /** `handleNewQuote`: merges the reset update into the quote and returns to
      step 0. */
  function HandleNewQuote(s: Session, now: nat): (r: Session)
    ensures r.currentStep == 0
    ensures r.quote.client == None && r.quote.items == []
    ensures r.quote.discount == 0.0 && r.quote.notes == ""
    ensures r.quote.status == Draft
    ensures r.quote.validUntil == now + 30 * 24 * 60 * 60 * 1000
    ensures r.quote.id == QuoteId(now)
  {
    Session(0, Merge(s.quote, NewQuotePatch(now)))
  }

  /** The reset quote is the initial quote, except for the stamps the update
      does not mention, which are carried over from the previous quote. */
  lemma NewQuoteIsInitialExceptStamps(s: Session, now: nat)
    ensures HandleNewQuote(s, now).quote
            == InitialQuote(now).(createdAt := s.quote.createdAt,
                                  updatedAt := s.quote.updatedAt,
                                  sentAt := s.quote.sentAt)
  {
  }

  /** From the provider's initial state, New Quote yields exactly the initial
      state for the new instant. */
  lemma NewQuoteFromInitial(created: nat, now: nat)
    ensures HandleNewQuote(InitialSession(created), now) == InitialSession(now)
  {
  }

  /** The reset does not clear `sentAt`: a quote that was sent keeps its
      send time while its status returns to draft. */
  lemma NewQuoteKeepsSentAt(s: Session, now: nat)
    requires s.quote.status == Sent && s.quote.sentAt.Some?
    ensures HandleNewQuote(s, now).quote.status == Draft
    ensures HandleNewQuote(s, now).quote.sentAt == s.quote.sentAt
  {
  }
}
