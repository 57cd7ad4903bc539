# InvoiceGen core, modelled in Dafny

InvoiceGen is a small web application for rental invoices at "Mi Casa Su
Casa". Staff fill in an invoice form. The form normalises the invoice
number and computes the night count. The invoice page turns the form into a
bill: totals, balance, amount in words and the PDF file name. A request to
print is routed through an approval workflow. The form stores a pending
approval record, and every admin browser that subscribed to push messages
is notified. An admin approves or rejects on the admin panel, and the form
polls for the decision. The finished PDF is mailed to the guest, with a
plain-text body built from the booking fields.

This project models the deterministic logic inside that glue:

- `AmountInWords` (`amount_words.dfy`): `numberToWordsIndian` and its local
  `toWords`, the Indian-scale number speller. An independent reader, `Eval`,
  parses a phrase back into a number. The lemmas prove that reading back
  `ToWords(x)` gives `x`, and that phrases are well spaced.
- `InvoicePage` (`invoice_page.dfy`): the totals block, `toMoney` as an
  explicit rounding, the quantity cell, and the `safe` PDF file name.
- `InvoiceForm` (`invoice_form.dfy`): invoice-number normalisation,
  `autoNights` and `buildPayload`. The class `FormPage` holds the form state
  that the page's handlers replace field by field.
- `AdminPanel` (`admin_panel.dfy`): the status filter, the pending count
  and the approve/reject actions of the admin panel.
- `AdminRequests` (`admin_requests.dfy`): the projection of stored approval
  documents to the records the admin panel receives.
- `Subscriptions` (`subscriptions.dfy`): the push-subscription collection.
  The class `SubscriptionStore` provides `saveSubscriptions`, the subscribe
  route's POST and DELETE, and `deleteOne`.
- `Approvals` (`approvals.dfy`): the approval-request collection. The class
  `ApprovalStore` has `insertOne` and the approval-response POST. The
  module also holds the request-approval POST with its push loop, and the
  GET status lookup.
- `VapidKey` (`vapid_key.dfy`): `urlBase64ToUint8Array`. It pads the key,
  maps the base64url alphabet to the standard alphabet (section 5 of RFC
  4648), decodes (section 4 of RFC 4648, as `atob` does) and fills a byte
  array in a loop. A base64url encoder is proved to round-trip with it.
- `SendInvoice` (`send_invoice.dfy`): the send-invoice route. It covers
  input validation, SMTP transport defaults, the subject, the booking and
  summary lines, the sections, the mail body and the attachment name. A
  line parser shows that every emitted `Name: value` line reads back. The
  mail carries the total line as the route writes it (see "Findings"); the
  intended body differs from it only there.
- `Decimal` (`decimal.dfy`) and `Wrappers` (`wrappers.dfy`): decimal
  text of integers, with a proved round trip, and `Option`.

Store operations take the outcome of each database call as a parameter,
such as `readOk`, `insertOk` or a `SaveFault`. The random part of a request
id, the clock and the set of push endpoints that answer 410 are also
parameters. Every error branch of the routes is therefore a case of the
contracts.

## Model

| member | source | states |
|---|---|---|
| AmountInWords.NumberToWordsIndian | src/app/invoice/page.tsx:14-28 | there is no result exactly when the floored input is negative (the source indexes `belowTwenty` out of range); 0 gives `Zero`; for a floor of 1 or more the independent reader `Eval` reads the phrase back as the floored input; a result is never empty |
| AmountInWords.ZeroExactly | src/app/invoice/page.tsx:15-16 | the result is "Zero" exactly when the floored input is 0 |
| AmountInWords.ReadBack | src/app/invoice/page.tsx:19-26 | for x ≥ 1, splitting `toWords(x)` at spaces gives the word list `Words(x)`, and the independent reader `Eval` maps it back to x |
| AmountInWords.NoEmptyWord | src/app/invoice/page.tsx:19-26 | for x ≥ 1 the phrase has no leading, trailing or double space, and every word is a non-empty token |
| AmountInWords.ScaleDecomposition | src/app/invoice/page.tsx:22-25 | from 100 on, the phrase is the leading part's phrase, then the scale word (Hundred below 1000, Thousand below 10^5, Lakh below 10^7, else Crore), then the remainder's phrase only when the remainder is non-zero |
| AmountInWords.WordsSmall | src/app/invoice/page.tsx:20-21 | below 100 every word is a unit or tens word, and their values add up to x |
| AmountInWords.BelowWord | src/app/invoice/page.tsx:17 | each `belowTwenty` entry from 1 to 19 is a single token whose value is its index |
| AmountInWords.TensValue | src/app/invoice/page.tsx:18 | each `tens` entry from 2 to 9 is a single token worth ten times its index |
| AmountInWords.EvalWords | src/app/invoice/page.tsx:19-26 | the reader gives back x from the word list of x, from any scale level at or below x's |
| AmountInWords.ToWordsIsJoin | src/app/invoice/page.tsx:19-26 | for x ≥ 1 the phrase is the word list joined with single spaces |
| AmountInWords.SplitJoin | src/app/invoice/page.tsx:19-26 | splitting a space-joined list of tokens gives the list back |
| AmountInWords.JoinWellSpaced | src/app/invoice/page.tsx:19-26 | joining tokens with single spaces gives no leading, trailing or double space |
| InvoicePage.Round | src/app/invoice/page.tsx:12 | `toMoney` is the nearest whole rupee, with halves rounded up |
| InvoicePage.RoundWhole | src/app/invoice/page.tsx:86-99 | a whole amount is unchanged by `toMoney` |
| InvoicePage.WithDefaults | src/app/invoice/page.tsx:32-54 | an empty invoice number becomes `MCSC-11`, an empty type `invoice`, an empty customer `Anuj` and an empty property `Rahul's Paradise`; given text and all numbers are kept |
| InvoicePage.ComputeTotals | src/app/invoice/page.tsx:79-99 | the subtotal is rate × nights and the tax is taxRate/100 × subtotal, each rounded to within half a rupee; the base total is subtotal plus tax; a set deposit status charges the rounded non-negative deposit; outside proforma the statuses and the rounded non-negative manual payment come from the parameters; a proforma bill has no deposit, is unpaid, has manual payment 0, total paid 0, and a balance equal to the non-negative base total |
| InvoicePage.Settle | src/app/invoice/page.tsx:82-99 | the deposit charge is the deposit once a status is set and 0 otherwise, paid or pending as the status says; the other payment is at most the larger of the base total and 0, and non-negative when the base is; the balance is never negative; the display total is base plus paid deposit, so a pending deposit never enters it; a full payment with no pending deposit leaves balance 0; paid plus owed equals everything charged |
| InvoicePage.PaymentOutcomes | src/app/invoice/page.tsx:90-99 | a partial payment up to the base total is counted in full and reduces the balance by itself; one above it settles the base and leaves only a pending deposit owed; unpaid (or unknown) counts nothing and owes the non-negative base plus a pending deposit; full pays the base and owes only a pending deposit |
| InvoicePage.ToLower | src/app/invoice/page.tsx:81 | each capital A-Z becomes its small letter and every other character is kept, so no ASCII capital remains (ASCII only, see "Left out") |
| InvoicePage.ProformaSpellings | src/app/invoice/page.tsx:81 | a type name is read as proforma exactly when it is "proforma" with each of its eight letters in either case |
| InvoicePage.QtyText | src/app/invoice/page.tsx:101 | the quantity cell is the night count, a space, then NIGHT for exactly one night and NIGHTS otherwise |
| InvoicePage.QtyTextReadsBack | src/app/invoice/page.tsx:101 | the number before the space reads back as the night count |
| InvoicePage.Safe | src/app/invoice/page.tsx:219 | same length; every output character is in `[A-Za-z0-9_-]`; kept characters are unchanged and all others become `_` |
| InvoicePage.PdfFileName | src/app/invoice/page.tsx:220 | the name is `safe` of the invoice number (INV when empty), then `_`, then `safe` of the customer name (Customer when empty), then `.pdf` |
| InvoicePage.PdfFileNameChars | src/app/invoice/page.tsx:219-220 | character by character, the number and the name keep each character `[a-z0-9-_]` allows (any case) and have `_` for every other; nothing before `.pdf` is outside that set |
| InvoiceForm.StripPrefix | src/app/page.tsx:153 | the result is the input less a leading part that is `MCSC-` or `PFI-` in some letter case; nothing is removed exactly when the input starts with neither |
| InvoiceForm.KeepDigits | src/app/page.tsx:155 | the result is all digits, no longer than the input, and a digit string is kept unchanged |
| InvoiceForm.KeepDigitsAppend | src/app/page.tsx:155 | the digits of a concatenation are the digits of each part in order, and one character is kept exactly when it is a digit |
| InvoiceForm.KeepDigitsMembers | src/app/page.tsx:155 | a character occurs in the result exactly when it is a digit of the input |
| InvoiceForm.GetInvoiceNumber | src/app/page.tsx:150-157 | the result is the digits of the whole value, in order: stripping the prefix first changes nothing, because neither prefix holds a digit |
| InvoiceForm.PrefixKeepsNoDigits | src/app/page.tsx:153-155 | removing a leading `MCSC-` or `PFI-` (any case) does not change the digits kept |
| InvoiceForm.FormatInvoiceNumber | src/app/page.tsx:160-164 | the result is empty exactly when the number is empty |
| InvoiceForm.NormalisedIsWellFormed | src/app/page.tsx:167-172 | a normalised number is empty or the type's prefix followed by one or more digits |
| InvoiceForm.FormatRoundTrip | src/app/page.tsx:153-163 | taking the digits of a formatted digit string gives it back, under either prefix |
| InvoiceForm.NormaliseIdempotent | src/app/page.tsx:150-164 | normalising a normalised number changes nothing |
| InvoiceForm.Retyped | src/app/page.tsx:178-182 | a prefix change keeps the digits, gives a well-formed number for the new type, and turns a number without digits into `''` |
| InvoiceForm.AutoNights | src/app/page.tsx:137-143 | with both dates, at least 1 and otherwise the day difference; with a date missing, the typed night count |
| InvoiceForm.UnnumberedFileName | src/app/invoice/page.tsx:36 | a payload without an invoice number reaches the page as `MCSC-11`, so its PDF name starts with `MCSC-11_` |
| InvoiceForm.BuildPayload | src/app/page.tsx:188-214 | identity fields, rate, tax rate, guests and the dates are copied; nights is `autoNights`; a proforma gets no deposit, unpaid, amount paid 0 and deposit 0; the deposit is 0 without a deposit and never negative; amount paid is non-zero only for a partial invoice; an invoice passes on the form's deposit and payment statuses, its partial amount paid, and, while a deposit status is set, the deposit raised to 0 if negative; total is rate × nights × (1 + tax/100) |
| InvoiceForm.ProformaBill | src/app/page.tsx:189-210 | a proforma form reaches the invoice page with nothing paid and the whole base total owed |
| InvoiceForm.PartialBill | src/app/page.tsx:188-214 | a partial payment reaches the invoice page as the rounded amount paid; up to the base total it is counted in full, and the balance is the rest of the base total plus any pending deposit |
| InvoiceForm.FullyPaidBill | src/app/page.tsx:188-214 | a fully paid invoice without a pending deposit reaches the invoice page with balance 0 |
| InvoiceForm.FormPage.constructor | src/app/page.tsx:106-118 | the page state starts as the form it is given (the saved form, or the defaults) |
| InvoiceForm.FormPage.NormaliseOnLoad | src/app/page.tsx:124-135 | a saved number is reformatted under the current prefix unless it has no digits or is already formatted; nothing else changes |
| InvoiceForm.FormPage.HandleInvoiceNumberChange | src/app/page.tsx:167-172 | only the invoice number changes, and it becomes well-formed |
| InvoiceForm.FormPage.HandleInvoiceTypeChange | src/app/page.tsx:175-186 | the type becomes the choice (default invoice); the number keeps its digits under the new prefix; nothing else changes |
| InvoiceForm.FormPage.HandleDepositStatusChange | src/app/page.tsx:485-488 | the deposit status becomes the choice (default none), and choosing none also clears the deposit |
| AdminPanel.Filtered | src/app/admin/page.tsx:73-75 | `all` gives the list unchanged; otherwise the result has exactly the requests with that status; it is never longer than the input |
| AdminPanel.FilteredIsSubsequence | src/app/admin/page.tsx:73-75 | the filtered list keeps the original relative order |
| AdminPanel.FilteredAppend | src/app/admin/page.tsx:73-75 | filtering distributes over concatenation |
| AdminPanel.PendingCount | src/app/admin/page.tsx:77 | the count is at most the number of requests |
| AdminPanel.PendingCountCounts | src/app/admin/page.tsx:77 | the count equals the number of `pending` statuses in the list |
| AdminPanel.Actions | src/app/admin/page.tsx:173-188 | approve and reject are offered, for the request's own id, exactly when its status is pending |
| AdminPanel.ActionBody | src/app/admin/page.tsx:59-65 | the posted body carries the request id, and `approved` is true exactly for Approve |
| AdminPanel.ActionReachesPoll | src/app/admin/page.tsx:173-188 | an action on a listed pending request, once answered, is what the polling form reads |
| AdminRequests.StampText | src/app/api/admin/requests/route.ts:44-45 | a Date becomes its ISO text, non-empty text is kept, anything else is absent |
| AdminRequests.ToView | src/app/api/admin/requests/route.ts:37-46 | id is `requestId` when present, else `_id`; invoice fields and status are copied; a missing `createdAt` becomes the current time; a missing `respondedAt` stays absent |
| AdminRequests.ListRequests | src/app/api/admin/requests/route.ts:8-29 | one view per stored document in the same order; a failed read gives the empty list |
| AdminRequests.NewRequestView | src/app/api/admin/requests/route.ts:37-46 | a record from request-approval is listed under its request id, as pending, with no response time |
| AdminRequests.DecisionListed | src/app/api/admin/requests/route.ts:37-46 | after a decision, the listed record at the same position carries that status and the response time |
| Subscriptions.Without | src/app/api/subscribe/route.ts:107 | the filtered list is never longer than the list |
| Subscriptions.WithoutMembers | src/app/api/subscribe/route.ts:107 | the filter keeps exactly the subscriptions with another endpoint |
| Subscriptions.WithoutEndpoints | src/app/api/subscribe/route.ts:107 | after the filter the endpoint is gone and every other endpoint remains |
| Subscriptions.WithoutAppend | src/app/api/subscribe/route.ts:107 | the filter keeps relative order: it distributes over concatenation |
| Subscriptions.WithoutKeepsUnique | src/app/api/subscribe/route.ts:106-108 | filtering keeps endpoints unique |
| Subscriptions.AppendKeepsUnique | src/app/api/subscribe/route.ts:62-66 | appending a new endpoint keeps endpoints unique |
| Subscriptions.SubscribeThenUnsubscribe | src/app/api/subscribe/route.ts:64-65 | subscribing a new endpoint and then unsubscribing it restores the list |
| Subscriptions.DeleteFirst | src/app/api/request-approval/route.ts:79 | `deleteOne` removes one subscription when the endpoint is present and nothing otherwise |
| Subscriptions.DeleteFirstIsWithout | src/app/api/request-approval/route.ts:79 | with unique endpoints, `deleteOne` and the DELETE filter agree |
| Subscriptions.DeleteFirstAt | src/app/api/request-approval/route.ts:79 | `deleteOne` removes exactly the first subscription with the endpoint |
| Subscriptions.Prune | src/app/api/request-approval/route.ts:73-83 | the pruned list is never longer than the list read |
| Subscriptions.PruneMembers | src/app/api/request-approval/route.ts:73-83 | the result keeps exactly the subscriptions whose endpoint did not answer 410 |
| Subscriptions.PruneAppend | src/app/api/request-approval/route.ts:73-83 | the removals keep relative order |
| Subscriptions.Stored | src/app/api/subscribe/route.ts:16-37 | after a save the collection is the list, or the old collection after a failed clear, or, after a failed ordered insert, the prefix of the list written before the failure |
| Subscriptions.PrefixKeepsUnique | src/app/api/subscribe/route.ts:24 | the prefix left by a failed insert keeps endpoints unique |
| Subscriptions.StoredKeepsValid | src/app/api/subscribe/route.ts:16-37 | whatever a save leaves keeps endpoints unique and holds no endpoint outside the list unless the clear failed |
| Subscriptions.SubscriptionStore.Save | src/app/api/subscribe/route.ts:16-37 | the collection is replaced by the list and the save succeeds; a failed clear leaves it unchanged; a failed insert leaves the prefix written before it and fails unless the list was empty (no insert is made then); a failed verification read leaves the list stored and fails |
| Subscriptions.SubscriptionStore.DeleteOne | src/app/api/request-approval/route.ts:79 | the collection loses its first subscription with the endpoint |
| Subscriptions.SubscriptionStore.Subscribe | src/app/api/subscribe/route.ts:39-100 | a missing body or endpoint changes nothing (400); a stored endpoint changes nothing and reports the count with `alreadyExists`; otherwise the new subscription is appended to the list read (empty after a failed read), and the collection and answer follow the save: stored with the new count, unchanged after a failed clear, the written prefix after a failed insert, stored but 500 after a failed verification or re-read; endpoints stay unique |
| Subscriptions.SubscriptionStore.Unsubscribe | src/app/api/subscribe/route.ts:102-115 | a failed read changes nothing (500); otherwise the list without the endpoint is saved: stored with success, unchanged after a failed clear, the written prefix after a failed insert (success only if nothing remained to insert), stored but 500 after a failed verification; endpoints stay unique |
| Approvals.StatusText | src/app/api/approval-response/route.ts:42 | the stored status is one of `pending`, `approved`, `rejected`, never `not_found` |
| Approvals.PendingRecord | src/app/api/request-approval/route.ts:49-56 | the inserted record is pending, carries the request id and the invoice fields unchanged, is stamped with the current time, and has no response time |
| Approvals.Decision | src/app/api/approval-response/route.ts:42 | `approved` is written exactly when the flag is truthy, else `rejected` |
| Approvals.FindFirst | src/app/api/approval-response/route.ts:7 | the position of the first document with the id, or none when no document has it |
| Approvals.Lookup | src/app/api/approval-response/route.ts:4-13 | `findOne` finds a document exactly when one has the id, and returns a stored document with that id |
| Approvals.Decide | src/app/api/approval-response/route.ts:15-26 | `updateOne` keeps the length and every document with another id |
| Approvals.Poll | src/app/api/approval-response/route.ts:62-83 | a missing id gives 400; `not_found` exactly when the id is unknown or the read fails; otherwise the stored status |
| Approvals.InsertedIsPending | src/app/api/request-approval/route.ts:49-56 | a freshly inserted record is found by its id and polls as pending |
| Approvals.DecideThenLookup | src/app/api/approval-response/route.ts:40-44 | after a decision, the record holds that status and response time, and its other fields are unchanged |
| Approvals.DecideFrame | src/app/api/approval-response/route.ts:18-21 | a decision on one id changes nothing another id finds |
| Approvals.LaterDecisionWins | src/app/api/approval-response/route.ts:40-44 | nothing guards the current status: a second decision overwrites the first |
| Approvals.DecisionVisibleToPoll | src/app/api/approval-response/route.ts:62-83 | a decision recorded by POST is the status GET returns |
| Approvals.PruneKeepsValid | src/app/api/request-approval/route.ts:73-83 | removing endpoints keeps them unique and non-empty |
| Approvals.ApprovalStore.Insert | src/app/api/request-approval/route.ts:31-34 | `insertOne` appends the document |
| Approvals.ApprovalStore.Respond | src/app/api/approval-response/route.ts:28-59 | no id gives 400 and no change; an unknown id or failed read gives 404 and no change; otherwise the decision is written and echoed, and a failed write gives 500 and no change; an echoed status is what GET then returns |
| Approvals.DropGone | src/app/api/request-approval/route.ts:73-85 | after the push loop, the collection is the read list without the subscriptions whose push answered 410 and whose deletion succeeded; the loop reports failure exactly when some 410 deletion failed |
| Approvals.RequestApproval | src/app/api/request-approval/route.ts:42-92 | a failed insert gives 500 and changes nothing; otherwise the pending record is stored before any push, only 410 answers remove subscriptions, and endpoints stay unique; the answer is the id, starting with `req_`, and the number of subscriptions read (0 after a failed read), or 500 when a 410 deletion failed, the record staying stored |
| VapidKey.PadCount | src/app/admin-notifications/page.tsx:99 | the padding is at most 3, the padded length is a multiple of 4, and a length already a multiple of 4 gets none |
| VapidKey.Repeat | src/app/admin-notifications/page.tsx:99 | `'='.repeat(n)` is n copies of the character |
| VapidKey.Padded | src/app/admin-notifications/page.tsx:99-100 | the input followed only by `=`, up to the next multiple of 4 |
| VapidKey.ToStandardAlphabet | src/app/admin-notifications/page.tsx:100 | same length; `-` becomes `+`, `_` becomes `/`, everything else is unchanged; no `-` or `_` remains |
| VapidKey.Base64FromUrl | src/app/admin-notifications/page.tsx:99-100 | the converted key has length a multiple of 4, at most 3 longer than the key |
| VapidKey.Sextets | src/app/admin-notifications/page.tsx:101 | decoding of the characters fails exactly when one is outside the standard alphabet, and otherwise gives each character's value |
| VapidKey.DecodeGroups | src/app/admin-notifications/page.tsx:101 | every 4 characters give 3 bytes, with a final 2 or 3 giving 1 or 2 |
| VapidKey.StripPadding | src/app/admin-notifications/page.tsx:101 | only trailing `=` are removed, at most two, and only from a text whose length is a multiple of 4; from such a text one trailing `=` is always removed and two when there are two |
| VapidKey.Atob | src/app/admin-notifications/page.tsx:101 | every decoded character is below 256; decoding fails exactly when the unpadded length is 1 mod 4 or a character is outside the alphabet |
| VapidKey.UrlBase64ToUint8Array | src/app/admin-notifications/page.tsx:98-107 | a new array; on success its length is the decoded length and element i is the code of decoded character i; failure exactly when `atob` fails |
| VapidKey.CharCodes | src/app/admin-notifications/page.tsx:102-105 | the loop fills a new array of the string's length with each character's code |
| VapidKey.EncodeUrl | src/app/admin-notifications/page.tsx:98-107 | the unpadded base64url text of a byte string has length ⌈4n/3⌉ |
| VapidKey.KeyRoundTrip | src/app/admin-notifications/page.tsx:98-107 | converting the base64url text of any byte string gives those bytes back |
| VapidKey.DecodeEncode | src/app/admin-notifications/page.tsx:101 | decoding the sextets of any byte string gives the bytes back |
| SendInvoice.SubjectText | src/app/api/send-invoice/route.ts:53 | the subject text starts with `I` and ends with `a`, so it has no outer whitespace |
| SendInvoice.Subject | src/app/api/send-invoice/route.ts:53 | trimming the subject leaves `Invoice <no> from Mi Casa Su Casa` unchanged |
| SendInvoice.TrimStartSpec | src/app/api/send-invoice/route.ts:53 | `trim` drops exactly the leading JavaScript whitespace |
| SendInvoice.TrimEndSpec | src/app/api/send-invoice/route.ts:53 | `trim` drops exactly the trailing JavaScript whitespace |
| SendInvoice.Present | src/app/api/send-invoice/route.ts:55-67 | `filter(Boolean)` keeps exactly the present fields; the result is empty exactly when none is present |
| SendInvoice.PresentMembers | src/app/api/send-invoice/route.ts:55-67 | an entry is kept exactly when its field is present |
| SendInvoice.Lines | src/app/api/send-invoice/route.ts:55-67 | one line per present field |
| SendInvoice.LinesReadBack | src/app/api/send-invoice/route.ts:55-77 | joining the lines with newlines and parsing them back gives the present fields' names and values in their fixed order |
| SendInvoice.GuestsText | src/app/api/send-invoice/route.ts:59 | the guest count is shown exactly when it is non-zero |
| SendInvoice.BookingLines | src/app/api/send-invoice/route.ts:55-60 | at most four lines; none exactly when property, dates and guests are all absent |
| SendInvoice.BookingReadsBack | src/app/api/send-invoice/route.ts:55-60 | the booking lines read back as the present fields, in the order Property, Check-in, Check-out, Guests |
| SendInvoice.GuestsZeroOmitted | src/app/api/send-invoice/route.ts:59 | with 0 guests the Guests line is omitted |
| SendInvoice.SummaryLines | src/app/api/send-invoice/route.ts:62-67 | at most four lines; none exactly when number, date, amount and status are all absent, whatever sign precedes the amount |
| SendInvoice.SummaryReadsBack | src/app/api/send-invoice/route.ts:62-67 | with the intended rupee sign U+20B9, the summary lines read back as the present fields, in the order number, date, amount, status |
| SendInvoice.BookingSection | src/app/api/send-invoice/route.ts:69-72 | the section is empty exactly when there are no booking lines, and otherwise is the `Booking details:` header, the lines joined by newlines, and a newline |
| SendInvoice.InvoiceSection | src/app/api/send-invoice/route.ts:74-77 | the section is empty exactly when there are no summary lines, and otherwise is a blank line, the `Invoice summary:` header, the lines joined by newlines, and a newline |
| SendInvoice.GreetingName | src/app/api/send-invoice/route.ts:79 | the customer name, or `Guest` when there is none |
| SendInvoice.StayClause | src/app/api/send-invoice/route.ts:81 | the stay clause is empty exactly when there is no property |
| SendInvoice.BodyLayout | src/app/api/send-invoice/route.ts:79-91 | the body opens with the greeting, holds the booking section and then the invoice section, and ends with the signature |
| SendInvoice.TransportFor | src/app/api/send-invoice/route.ts:33-51 | the port defaults to 587, `secure` exactly when the port is 465, and the credentials are passed on |
| SendInvoice.MailFor | src/app/api/send-invoice/route.ts:93-105 | `from` defaults to the SMTP user, the subject is the composed one, the body is the one the route writes (the total preceded by the garbled characters of line 65), and the attachment name defaults to `invoice.pdf` |
| SendInvoice.Prepare | src/app/api/send-invoice/route.ts:23-51 | a missing recipient or PDF gives 400 before any transport is built; otherwise missing host, user or password gives 500; otherwise the mail is delivered with the composed transport and mail |
| SendInvoice.StatusCode | src/app/api/send-invoice/route.ts:23-41 | 400 exactly for missing input, 200 exactly when delivery is prepared and sending succeeds, otherwise 500 |
| SendInvoice.GarbledRupeeIsMisreadUtf8 | src/app/api/send-invoice/route.ts:65 | the three characters before the amount are the UTF-8 bytes of U+20B9 read as Windows-1252 |
| SendInvoice.GarbledTotalLine | src/app/api/send-invoice/route.ts:65 | as written, the total 5000 is mailed with the garbled characters and no rupee sign; the corrected line carries U+20B9 |
| SendInvoice.SummaryAround | src/app/api/send-invoice/route.ts:62-67 | the summary lines are the number and date lines, the total line when there is a total, then the status line |
| SendInvoice.JoinAround | src/app/api/send-invoice/route.ts:76 | joining lines with newlines around one line puts a newline on each side of it that has lines |
| SendInvoice.RupeeOnlyInTotal | src/app/api/send-invoice/route.ts:65-91 | the body sent and the body meant share everything but the characters before the amount; without a total they are equal |
| Decimal.NatToStringRoundTrip | src/app/invoice/page.tsx:101 | the decimal text of a natural number reads back as that number |
| Decimal.IntToStringRoundTrip | src/app/invoice/page.tsx:101 | the decimal text of an integer is an optional minus sign and digits, and reads back as that integer |

## Left out

- Floating point: money is computed over exact reals and rounded by `Round`, with halves rounded up. `Number.EPSILON` and binary representation error are not modelled. The float total of `buildPayload` is an exact real.
- `Number(...) || 0` parsing of form and query text, NaN, and `Infinity`. Numeric fields arrive already read as numbers.
- Dates: `new Date`, `toISOString`, `toLocaleDateString` and `datePretty`. Check-in and check-out are day numbers, and stored times are opaque text.
- InvoiceForm.AutoNights: does not model the millisecond difference rounded by `Math.round`, so fractional days (daylight-saving shifts) are not covered.
- Approvals.ApprovalStore: the collection is a sequence of documents with MongoDB's first-match semantics for `findOne` and `updateOne`, rather than a map from request id to record. The code inserts without checking for a repeated id, so the sequence is what it does.
- The `sort({ createdAt: -1 })` of the admin list. `AdminRequests.ListRequests` lists the documents in the order given.
- The pushes of request-approval run concurrently under `Promise.all`. In the model they run in list order, one `deleteOne` at a time, and a failed deletion does not stop the others (in the source they are already under way). Races between routes, lost updates and duplicate responses are not modelled.
- web-push, nodemailer and `sendMail`: the push outcome is the set of endpoints that answered 410, and the send outcome is a flag. The attachment content stays as the base64 text; decoding it with `Buffer.from` is not modelled.
- The text of `SMTP_PORT`: the port is an optional integer, with `Number` parsing left out.
- `atob` skips ASCII whitespace in its input; the model rejects it instead. A VAPID key never contains whitespace.
- InvoicePage.ToLower: lowers ASCII capitals only, where `toLowerCase` also lowers other scripts and can lengthen a string (U+0130 becomes two characters). Its one use compares the result with "proforma", and no character outside ASCII lowers to one of that word's letters, so the comparison comes out the same.
- InvoicePage.Safe: works on UTF-16 code units in the source and on Dafny characters here. An astral character is therefore one `_` here instead of two.
- Request bodies whose fields are not strings (JSON numbers, objects): each field is a string, with `""` for missing. The one exception is `guests`, an integer.
- The request id's random part (`Date.now()` and `Math.random()`), the object id of inserted documents, and the current time are parameters.
- PDF rendering (html2canvas, jsPDF, Puppeteer), the DOM, layout and styling, the viewport effect, and image fallbacks.
- The polling loops of the form and invoice pages, and the admin panel's periodic refresh.
- The generic `update` handler of the form: it only copies a field. The query-parameter memo of the invoice page is `InvoicePage.WithDefaults` together with the status parsers; the e-mail and phone parameters it also reads are not used by the modelled logic.
- The night count is a whole number in the form, the payload and the page. The form reads it with `Number`, so a fractional count such as 1.5 is possible there and prints as "1.5 NIGHTS"; the model does not cover it.
- A request body that is not JSON (or, where it is destructured, not an object) makes `req.json()` throw, and the route answers 500 before any check of its fields. This holds for send-invoice (src/app/api/send-invoice/route.ts:21), the subscribe POST and DELETE (src/app/api/subscribe/route.ts:41, 104), request-approval (src/app/api/request-approval/route.ts:44) and approval-response (src/app/api/approval-response/route.ts:30, answered at 52-57). The models start from a parsed body, so `SendInvoice.Prepare`, `SendInvoice.StatusCode`, `Subscriptions.SubscriptionStore.Subscribe`, `Subscriptions.SubscriptionStore.Unsubscribe`, `Approvals.RequestApproval` and `Approvals.ApprovalStore.Respond` have no such outcome; the subscribe POST's missing body is a JSON `null`, which answers 400.
- Console logging, the service worker, the MongoDB connection cache, and the debug routes check-subscriptions and test-kv.
- AdminRequests.ToView: `_id` is its string form, so the `toString()` versus `String()` fallback is not distinguished.

## Findings

| source | as written | input that shows it | evidently intended | confidence | as-written member | corrected member |
|---|---|---|---|---|---|---|
| src/app/api/send-invoice/route.ts:65 | the total line is prefixed with "â‚¹" (U+00E2 U+201A U+00B9), the UTF-8 bytes of the rupee sign misread as Windows-1252 | totalAmount "5000" gives "Total Amount: â‚¹5000" with no rupee sign | "Total Amount: ₹5000" with U+20B9 | not executed | SendInvoice.GarbledTotalLine | SendInvoice.SummaryReadsBack |

The mail the model sends (`MailFor`) keeps the line as written. `RupeeOnlyInTotal` shows that the body with the intended sign differs from it only in the characters before the amount.
