/** The Generate & Send step (components/steps/generate-send.tsx): the send
    transition, the displayed totals and the Back control. The email sender
    and the save are outside the model; their outcomes are inputs. */
module GenerateSend {
  import opened Wrappers
  import Seqs
  import opened QuoteService
  import opened QuoteContext

  /** The step's quote together with its local "sent" flag. */
  datatype SendView = SendView(quote: Quote, isSent: bool)

  /** `handleSendQuote`. Without a client nothing happens. With one, the
      email is sent; on success the quote becomes `sent` with `sentAt = now`
      and is saved, and the flag is raised when the save also succeeds (a
      failed save leaves the flag as it was).
      A failed email changes nothing. Neither the status nor the number of
      items is checked. */
  function HandleSendQuote(v: SendView, emailSent: bool, saved: bool, now: nat): (r: SendView)
    ensures v.quote.client.None? ==> r == v
    ensures v.quote.client.Some? && emailSent ==>
              r.quote.status == Sent && r.quote.sentAt == Some(now)
              && r.quote.(status := v.quote.status, sentAt := v.quote.sentAt) == v.quote
              && r.isSent == (v.isSent || saved)
    ensures !emailSent ==> r == v
  {
    if v.quote.client.None? then v
    else if emailSent then
      SendView(v.quote.(status := Sent, sentAt := Some(now)), v.isSent || saved)
    else v
  }

  /** Any quote with a client can be sent, whatever its status and even with
      no items. */
  lemma SendFromAnyState(q: Quote, now: nat)
    requires q.client.Some?
    ensures HandleSendQuote(SendView(q, false), true, true, now).quote.status == Sent
    ensures HandleSendQuote(SendView(q.(items := []), false), true, true, now).quote.status == Sent
  {
  }

  /** When the email goes out but the save fails, the quote already reads
      `sent` while the step still offers Send; sending again stamps a new
      `sentAt`. */
  lemma ResendAfterFailedSave(q: Quote, t1: nat, t2: nat)
    requires q.client.Some? && t1 < t2
    ensures var first := HandleSendQuote(SendView(q, false), true, false, t1);
            first.quote.status == Sent && !first.isSent
            && HandleSendQuote(first, true, true, t2).quote.sentAt == Some(t2)
  {
  }

  /** The Price column of the preview table: `customPrice || basePrice`. */
  function DisplayedPrice(item: QuoteItem): real
  {
    EffectivePrice(item)
  }

  /** The Total column: displayed price times quantity. */
  function DisplayedLineTotal(item: QuoteItem): real
  {
    DisplayedPrice(item) * item.quantity as real
  }

  /** The Total column of the preview adds up to the subtotal shown below
      it. */
  lemma DisplayedLinesSumToSubtotal(q: Quote)
    ensures Seqs.SumBy(q.items, DisplayedLineTotal) == CalculateQuote(q).subtotal
  {
    Seqs.SumByPointwise(q.items, DisplayedLineTotal, LineTotal);
  }

  /** The discount row is shown only for a positive discount. */
  function ShowDiscountRow(q: Quote): bool
  {
    q.discount > 0.0
  }

  /** With a non-negative discount, a hidden discount row means the total
      shown equals the subtotal. */
  lemma HiddenDiscountRowMeansNoDiscount(q: Quote)
    requires q.discount >= 0.0 && !ShowDiscountRow(q)
    ensures CalculateQuote(q).total == CalculateQuote(q).subtotal
  {
  }

  /** A negative discount is hidden from the totals box yet raises the
      total above the subtotal. */
  lemma NegativeDiscountHidden(q: Quote)
    requires q.discount == -10.0 && CalculateQuote(q).subtotal == 100.0
    ensures !ShowDiscountRow(q)
    ensures CalculateQuote(q).total == 110.0
  {
  }

  /** The Back control: it returns to step 3 and is disabled once the quote
      has been sent. */
  function HandleBack(s: Session, isSent: bool): (r: Session)
    ensures r.quote == s.quote
    ensures isSent ==> r == s
    ensures !isSent ==> r.currentStep == 3
  {
    if isSent then s else s.(currentStep := 3)
  }
}
