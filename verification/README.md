# Quote engine of a quote-building wizard, in Dafny

This project models the quote engine of a five-step quote-building wizard.
In the wizard a user picks a client, picks services with quantities,
adjusts prices, quantities and the discount, and sends the quote by email.
The model covers:

- the quote service: the totals calculation, and create/update/get over the id-keyed quote store;
- the client directory and the service catalog;
- the wizard's shared state and its partial-record merge;
- the handlers of the four working steps, and the New Quote reset;
- the progress bar and the step-to-component lookup.

Everything is pure functions over immutable datatypes:

- money and the discount percentage are exact `real`s;
- quantities are `int`s;
- timestamps are `int` milliseconds, and the clock reading is a `now: nat` parameter;
- parsed text inputs are `Option` values, where `None` stands for NaN.

JavaScript's `x || fallback` on numbers is modelled by `QuoteService.OrElse`.
An absent or zero value yields the fallback.

Modules follow the source files. Each `.dfy` file holds one module:

- `quote_service.dfy` (`QuoteService`)
- `client_service.dfy` (`Directory`)
- `service_service.dfy` (`Catalog`)
- `quote_context.dfy` (`QuoteContext`)
- `app_sidebar.dfy` (`AppSidebar`)
- `service_selection.dfy` (`ServiceSelection`)
- `review_customize.dfy` (`ReviewCustomize`)
- `generate_send.dfy` (`GenerateSend`)
- `client_selection.dfy` (`ClientSelection`)
- `step_indicator.dfy` (`StepIndicator`)
- `quote_builder.dfy` (`QuoteBuilder`)

Three helper modules model runtime behaviour:

- `wrappers.dfy` (`Wrappers`): `Option` and `Result`.
- `seqs.dfy` (`Seqs`): order-preserving filter and left-fold sums, as `filter` and `reduce` behave.
- `text.dfy` (`Text`): decimal rendering of numbers, ASCII lower-casing, substring search and the string order of `sort()`.

## Behaviour of the code worth knowing

- Sending checks only that a client is set. It does not check that the quote is a draft or that it has items. A quote can be sent again after a failed save: `GenerateSend.SendFromAnyState` and `GenerateSend.ResendAfterFailedSave`.
- An unparseable or zero price input resets the override to the service's base price. It does not keep the previous override: `ReviewCustomize.PriceFallbackIgnoresPreviousOverride`.
- The discount is never clamped to [0, 100]. A discount above 100 gives a negative total: `ReviewCustomize.DiscountNotClamped`. A negative discount hides the discount row but raises the total: `GenerateSend.NegativeDiscountHidden`.
- The services step shows a subtotal at base prices, ignoring overrides. It matches the calculation only while no price has been overridden: `ServiceSelection.SubtotalsAgreeAfterRequests` and `ServiceSelection.SubtotalIgnoresOverride`.
- New Quote does not clear `sentAt` or the creation/update stamps: `AppSidebar.NewQuoteKeepsSentAt`.
- If "All" is itself a service category, the category list shows "All" twice: `ServiceSelection.CategoriesDistinctIff`.

## Model

| member | source | states |
|---|---|---|
| `QuoteService.CalculateQuote` | services/quote-service.ts:74-89 | total = subtotal − discountAmount; discountAmount = subtotal × discount / 100; a quote without items gives 0 for all four figures |
| `QuoteService.CalculateAppend` | services/quote-service.ts:75-81 | appending a line adds `(customPrice \|\| basePrice) × quantity` to the subtotal and its quantity (not 1) to the item count |
| `QuoteService.CalculateSwapInvariant` | services/quote-service.ts:75-81 | subtotal and item count do not depend on the order of the lines |
| `QuoteService.ItemCountIsQuantitySum` | services/quote-service.ts:81 | the item count of a one-line quote is that line's quantity, not the number of lines |
| `QuoteService.TotalBounds` | services/quote-service.ts:79-80 | with non-negative prices and quantities and 0 ≤ discount ≤ 100: 0 ≤ total ≤ subtotal |
| `QuoteService.CalculateExample` | services/quote-service.ts:74-89 | 5000 × 1 plus 2500 × 2 at 10% gives subtotal 10000, discount 1000, total 9000, item count 3; an absent override uses the base price |
| `QuoteService.QuoteIdsDistinct` | services/quote-service.ts:39 | `quote-<now>` ids are equal exactly when the creation instants are equal |
| `QuoteService.CreateQuote` | services/quote-service.ts:37-50 | new quote: draft, no client, no items, discount 0, empty notes, createdAt = updatedAt = now, validUntil = now + 2,592,000,000 ms; the store grows by exactly that quote at the end |
| `QuoteService.FindIndex` | services/quote-service.ts:54 | returns the first position whose id matches, and none exactly when no stored quote has the id |
| `QuoteService.UpdateQuote` | services/quote-service.ts:53-66 | fails with "Quote not found" exactly when no stored quote has the id; otherwise replaces only the first matching slot with the quote plus updatedAt = now, keeping the store length |
| `QuoteService.GetQuoteById` | services/quote-service.ts:69-71 | returns the first stored quote with the id; null exactly when there is none |
| `QuoteService.CreateThenGet` | services/quote-service.ts:37-71 | right after createQuote the new id is found; with no earlier quote of that id it is the new quote |
| `QuoteService.CreateFreshId` | services/quote-service.ts:39-48 | if every stored quote was created earlier, the new id is fresh and getQuoteById returns the new quote |
| `QuoteService.CreateThenSave` | services/quote-service.ts:37-66 | saving a just-created quote (edited, same id) succeeds, keeps its id, and at a later time has updatedAt ≥ createdAt |
| `QuoteService.UpdateThenGet` | services/quote-service.ts:53-71 | after a successful save, getQuoteById returns the saved quote |
| `QuoteService.UpdateKeepsOthers` | services/quote-service.ts:64 | a save leaves every stored quote with another id unchanged |
| `Directory.CreateClient` | services/client-service.ts:57-66 | the new client has the request's name, email, company and phone, id `client-<now>` and both stamps at now; the store grows by one, old entries unchanged, new client last |
| `Directory.CreateThenList` | services/client-service.ts:52-64 | after createClient, getClients is the previous list followed by the new client |
| `Directory.ClientIdsDistinct` | services/client-service.ts:59 | client ids are equal exactly when the creation instants are equal |
| `Catalog.GetServices` | services/service-service.ts:80 | every listed service is in the catalog with isActive true; every active catalog service is listed; services with isActive absent or false are not; each active entry appears as often as in the catalog |
| `Catalog.GetServicesPreservesOrder` | services/service-service.ts:80 | the listing is the catalog with entries deleted, so catalog order is kept |
| `Catalog.GetServicesAllActive` | services/service-service.ts:80 | a catalog of active services is listed whole and unchanged |
| `QuoteContext.InitialQuote` | components/quote-context.tsx:120-127 | initial quote: id `quote-<now>`, no client, no items, discount 0, empty notes, draft, validUntil = now + 30×24×60×60×1000 ms |
| `QuoteContext.InitialSession` | components/quote-context.tsx:119-127 | the wizard starts at step 0 with an empty draft quote |
| `QuoteContext.Merge` | components/quote-context.tsx:129-131 | every field present in the update is overwritten; every absent field is kept |
| `QuoteContext.MergeUnique` | components/quote-context.tsx:129-131 | those two properties determine the merged quote uniquely |
| `QuoteContext.MergeEmpty` | components/quote-context.tsx:130 | an empty update is the identity |
| `QuoteContext.MergeCompose` | components/quote-context.tsx:130 | two successive updates equal one combined update in which later fields win |
| `QuoteContext.MergeIdempotent` | components/quote-context.tsx:130 | applying the same update twice is applying it once |
| `AppSidebar.HandleNewQuote` | components/app-sidebar.tsx:50-61 | New Quote: step 0, no client, no items, discount 0, empty notes, draft whatever the previous status, validUntil = now + 30 days, id `quote-<now>` |
| `AppSidebar.NewQuoteIsInitialExceptStamps` | components/app-sidebar.tsx:51-59 | the reset quote equals the initial quote except for the stamps the update omits, which are carried over |
| `AppSidebar.NewQuoteFromInitial` | components/app-sidebar.tsx:50-61 | from the initial state, New Quote yields the initial state at the new instant |
| `AppSidebar.NewQuoteKeepsSentAt` | components/app-sidebar.tsx:51-59 | after a send, New Quote sets the status back to draft but keeps the old sentAt |
| `ServiceSelection.Categories` | components/steps/service-selection.tsx:18-21 | "All" first, then exactly the service categories, strictly ascending (sorted, no duplicates) |
| `ServiceSelection.CategoriesDistinctIff` | components/steps/service-selection.tsx:18-21 | the whole list is duplicate-free exactly when no service has category "All" |
| `ServiceSelection.FilterServices` | components/steps/service-selection.tsx:24-32 | a service is listed iff the lower-cased search occurs in its lower-cased name or description and the category is "All" or the service's; every matching entry is kept as often as it occurs |
| `ServiceSelection.FilterServicesShowsAll` | components/steps/service-selection.tsx:24-32 | an empty search in "All" lists every service, in order |
| `ServiceSelection.FilterServicesPreservesOrder` | components/steps/service-selection.tsx:25 | the filtered list keeps the order of the service list |
| `ServiceSelection.GetServiceQuantity` | components/steps/service-selection.tsx:34-38 | the quantity of the first item for the service id, or 0 when there is none |
| `ServiceSelection.UpsertItem` | components/steps/service-selection.tsx:43-45 | quantity ≤ 0 removes exactly the service's items, keeping the others in order (no-op when absent); quantity > 0 puts one item last with customPrice = basePrice after the other items in their order; uniqueness of service ids and base pricing are preserved |
| `ServiceSelection.UpdateServiceQuantity` | components/steps/service-selection.tsx:40-48 | only the items change, and the service's quantity afterwards is the requested absolute quantity (0 when ≤ 0) |
| `ServiceSelection.UpdateKeepsOtherQuantities` | components/steps/service-selection.tsx:43-47 | the quantity shown for every other service is unchanged |
| `ServiceSelection.ApplyRequestsInvariant` | components/steps/service-selection.tsx:43-45 | after any sequence of quantity changes there is at most one item per service id |
| `ServiceSelection.GetTotalItems` | components/steps/service-selection.tsx:50-53 | the sum of quantities, equal to the item count of the quote calculation |
| `ServiceSelection.SubtotalsAgree` | components/steps/service-selection.tsx:55-58 | while every line is priced at its base price, this step's subtotal equals calculateQuote's subtotal |
| `ServiceSelection.SubtotalsAgreeAfterRequests` | components/steps/service-selection.tsx:45-58 | items created only by quantity changes carry customPrice = basePrice, so the two subtotals agree |
| `ServiceSelection.SubtotalIgnoresOverride` | components/steps/service-selection.tsx:55-58 | this step's subtotal ignores customPrice: base 100 overridden to 80 shows 100 here, 80 in the calculation |
| `ServiceSelection.UpdateDiscardsOverride` | components/steps/service-selection.tsx:45 | a quantity change resets the service's customPrice to its base price |
| `ServiceSelection.MinusTarget` | components/steps/service-selection.tsx:129 | the minus control never requests a quantity below 0, and otherwise requests one less |
| `ServiceSelection.PlusThenMinus` | components/steps/service-selection.tsx:129-139 | plus followed by minus restores the displayed quantity |
| `ServiceSelection.HandleContinue` | components/steps/service-selection.tsx:60-72 | refused with no items; otherwise step 3 only after a successful save; the quote is unchanged |
| `ReviewCustomize.HandlePriceUpdate` | components/steps/review-customize.tsx:24-33 | only the customPrice of the item at index changes; it becomes the parsed price, or the base price when the input is unparseable or zero |
| `ReviewCustomize.PriceFallbackIgnoresPreviousOverride` | components/steps/review-customize.tsx:28 | an unparseable input replaces an earlier override of 42 by the base price 100 |
| `ReviewCustomize.PriceUpdateSubtotal` | components/steps/review-customize.tsx:24-30 | the subtotal changes by exactly that line's old and new totals |
| `ReviewCustomize.QuantityInput` | components/steps/review-customize.tsx:118 | an unparseable or zero quantity input becomes 1; other values pass unchanged |
| `ReviewCustomize.HandleQuantityUpdate` | components/steps/review-customize.tsx:35-40 | quantity ≤ 0 leaves the quote unchanged; otherwise only the quantity at index is replaced |
| `ReviewCustomize.QuantityFieldKeepsPositive` | components/steps/review-customize.tsx:36-39 | no input typed in a quantity field can make a line's quantity 0 or negative |
| `ReviewCustomize.QuantityUpdateItemCount` | components/steps/review-customize.tsx:35-40 | the item count changes by the new minus the old quantity |
| `ReviewCustomize.RemoveAt` | components/steps/review-customize.tsx:43 | filtering out position index equals deleting that element by slicing; out of range leaves the list unchanged |
| `ReviewCustomize.RemoveItem` | components/steps/review-customize.tsx:42-45 | deletes exactly the item at index, keeping the others in order; out of range is a no-op; other quote fields unchanged |
| `ReviewCustomize.RemoveItemSubtotal` | components/steps/review-customize.tsx:42-45 | removal lowers the subtotal by the removed line's total |
| `ReviewCustomize.DiscountInput` | components/steps/review-customize.tsx:190 | an unparseable discount input becomes 0; any parsed value is kept, not clamped |
| `ReviewCustomize.HandleDiscountChange` | components/steps/review-customize.tsx:190 | only the discount changes |
| `ReviewCustomize.DiscountNotClamped` | components/steps/review-customize.tsx:190 | typing 150 on a subtotal of 100 gives a total of −50 |
| `ReviewCustomize.HandleContinue` | components/steps/review-customize.tsx:47-57 | step 4 only after a successful save; a failed save changes nothing |
| `GenerateSend.HandleSendQuote` | components/steps/generate-send.tsx:43-72 | no client: nothing happens; email success: status sent, sentAt = now, every other field unchanged, isSent raised when the save succeeds and otherwise left as it was; email failure: nothing changes |
| `GenerateSend.SendFromAnyState` | components/steps/generate-send.tsx:43-61 | a quote with a client can be sent from any status and with no items |
| `GenerateSend.ResendAfterFailedSave` | components/steps/generate-send.tsx:58-68 | after email success and save failure the quote is sent but isSent is false; sending again restamps sentAt |
| `GenerateSend.DisplayedLinesSumToSubtotal` | components/steps/generate-send.tsx:175-178 | the table's `(customPrice \|\| basePrice) × quantity` line totals add up to calculateQuote's subtotal |
| `GenerateSend.HiddenDiscountRowMeansNoDiscount` | components/steps/generate-send.tsx:194 | with a non-negative discount, a hidden discount row means total = subtotal |
| `GenerateSend.NegativeDiscountHidden` | components/steps/generate-send.tsx:194 | a −10% discount hides the row yet makes a subtotal of 100 a total of 110 |
| `GenerateSend.HandleBack` | components/steps/generate-send.tsx:380 | Back goes to step 3, and does nothing once the quote is sent |
| `ClientSelection.FilterClients` | components/steps/client-selection.tsx:26-31 | a client is listed iff the lower-cased search occurs in its lower-cased name, company or email; every matching entry is kept as often as it occurs |
| `ClientSelection.FilterClientsShowsAll` | components/steps/client-selection.tsx:26-31 | an empty search lists all clients in their original order |
| `ClientSelection.FilterClientsPreservesOrder` | components/steps/client-selection.tsx:26 | the filtered list keeps the order of the client list |
| `ClientSelection.HandleClientSelect` | components/steps/client-selection.tsx:33-36 | only the quote's client changes, to the selected client |
| `ClientSelection.HandleAddClient` | components/steps/client-selection.tsx:38-45 | the directory grows by the new client, which becomes the quote's client with the request's fields; nothing else in the quote changes |
| `ClientSelection.CanAddClient` | components/steps/client-selection.tsx:136 | the Add Client button is enabled iff name, email and company are non-empty and no creation is in progress |
| `ClientSelection.CanAddClientIgnoresPhone` | components/steps/client-selection.tsx:136 | the phone never affects whether a client can be added |
| `ClientSelection.AddedClientIsComplete` | components/steps/client-selection.tsx:38-45 | a client added through the enabled button is last in the directory, is the quote's client, and has a non-empty name, email and company |
| `ClientSelection.HandleContinue` | components/steps/client-selection.tsx:57-69 | no client: no-op; otherwise step 2 only after a successful save |
| `ClientSelection.SelectThenContinue` | components/steps/client-selection.tsx:33-63 | selecting a client and continuing with a successful save reaches step 2 |
| `StepIndicator.Indicator` | components/step-indicator.tsx:20-49 | step i is completed iff i < current, current iff i = current, pending iff i > current; a non-completed step shows i + 1; the label is highlighted iff i ≤ current; a connector follows every step but the last and is highlighted iff i < current |
| `StepIndicator.ExactlyOneCurrent` | components/step-indicator.tsx:6-24 | for 0 ≤ current < 5 exactly one step is current, otherwise none |
| `QuoteBuilder.ComponentFor` | components/quote-builder.tsx:11-21 | for 0 ≤ current < 5 the component is the table's entry at current; any other step shows StartQuote |
| `QuoteBuilder.TitlesMatchIndicator` | components/quote-builder.tsx:11-17 | the step table has five entries whose titles match the progress bar, in order |
| `QuoteBuilder.EachComponentHasOneStep` | components/quote-builder.tsx:11-21 | each of the five components is shown for exactly one step index |
| `Text.ContainsIffOccurs` | components/steps/service-selection.tsx:27-28 | the modelled `includes` holds exactly when the needle occurs at some offset |

## Left out

- Rendering: JSX, CSS classes, icons and layout. The step index, quote and flags that drive them are modelled.
- Locale formatting (`toLocaleString`, `toLocaleDateString`), the ISO date input and the email template text. The valid-until and notes change handlers of the review step are plain field replacements on formatted input and are not modelled.
- The email and PDF services, the clipboard copy with its timer, and the download handler. The email and save outcomes are boolean inputs.
- The loading flags `isSaving`, `isSending` and `isCreatingClient` are left out. `ClientSelection.CanAddClient` takes the creating flag as an input.
- React state and hook wiring, including the error thrown when the context is used outside its provider. `setQuote`, `saveQuote`, `refreshClients` and `createNewQuote` are called by the steps but are not defined by the context shown. `setQuote` is modelled as replacing the quote. A save is modelled by its success or failure; `QuoteService.UpdateQuote` is the store operation it stands for.
- The form reset and dialog closing after a client is added.
- `parseFloat`/`parseInt`: parse results are `Option` inputs. NaN is `None`. Infinity is not represented.
- JavaScript floating point: money is exact `real`, so rounding is not modelled.
- Unicode case mapping: `toLowerCase` is modelled on ASCII letters only.
- `sort()` compares UTF-16 code units. The model compares whole characters, which differs only for characters outside the Basic Multilingual Plane.
- Each operation reads the clock once. `createQuote`, `createClient` and the initial quote read `Date.now()`/`new Date()` more than once; the model uses one instant for all of them.
- The `createdAt`/`updatedAt` fields of catalog services are left out: nothing reads them.
- `handlePriceUpdate` with an index outside the item list. The page only renders the control for existing lines; out of range the source would throw, or would store a line without a service. `ReviewCustomize.HandlePriceUpdate` requires an index in range. `ReviewCustomize.HandleQuantityUpdate` requires one only for a positive quantity.
- The `if (!quote)` guards in the step handlers. The context always holds a quote, so these guards are left out.
- The start page and the page composition hold static content only.
