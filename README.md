# FundEd fund ledger — a Dafny model

FundEd is an admin dashboard that a class representative uses to collect
money for class events. This project models the deterministic rules inside
its dashboard pages and email flow. It works over sequences of records: payments,
events, students, print-distribution records and QR codes.

- **Payment aggregation** (`EventsPage`, `Dashboard`, `Ledger`). The per-event
  "collected" figure is the sum of the Paid payments of that event. The
  dashboard's Total Collected counts Paid payments and Total Pending counts
  Pending and Verification Pending payments. The transaction count is the
  number of payment records. A collection that has not loaded yet counts as
  zero.
- **Event form** (`EventsPage.EventForm`). This is a class whose fields are the page's
  state: the payment-option checkboxes (a toggle), the defaults for a new
  event, the record a save writes (an update, or a creation with zero totals),
  the type-"delete" confirmation gate and the copyable payment link.
- **Print distribution** (`PrintsPage`). Print events are the events whose
  lower-cased name contains "print". The eligible list holds every student
  except those already recorded for the chosen event. A search matches on
  name or roll number. `PrintPage.Distribute` prepends a record to the log.
- **Payment emails** (`PaymentEmails`). The submitted and approved flows
  take the generated text and the transport's result as inputs. An empty body
  fails without sending. Otherwise one mail goes out, with a fixed subject and
  with every newline turned into `<br>`. The transport's result decides the
  outcome.
- **QR code settings** (`SettingsPage.QrCodeList`). The list starts with two
  sample codes, and deleting filters one id out.
- **Sidebar** (`DashboardLayout`). This is the active-item rule for the five
  navigation items and for the Settings button.

Three behaviours of the code worth noting:
- The print page picks print events by their name, not by the event's
  category. It does not look at payment status: every student who has no
  record for the event is eligible.
- The success message of both email flows ends with a full stop:
  `Email successfully sent to <email>.`
- The dashboard reads a top-level `payments` collection, while the events
  page reads `classes/class-1/payments`. The model takes each page's
  collection as its own input.

## Model

| member | source | states |
|---|---|---|
| Text.Lower | src/app/dashboard/prints/page.tsx:73-74 | `toLowerCase` keeps the length and maps each character on its own: A-Z move down to a-z, and every other character is kept |
| Text.ContainsIffOccurs | src/app/dashboard/prints/page.tsx:73-74 | `includes` holds exactly when the query occurs at some position of the text |
| Ledger.SumAmountsAppend | src/app/dashboard/events/page.tsx:91 | the `reduce` sum of amounts splits over concatenation |
| EventsPage.PaidForEvent | src/app/dashboard/events/page.tsx:90 | the filter keeps exactly the payments of this event whose status is Paid |
| EventsPage.CollectedForEvent | src/app/dashboard/events/page.tsx:87-92 | the collected amount is 0 when payments are not loaded or there are none |
| EventsPage.CollectedStep | src/app/dashboard/events/page.tsx:89-91 | one more payment adds its amount exactly when it is a Paid payment of this event, and adds 0 otherwise |
| EventsPage.CollectedIgnoresOthers | src/app/dashboard/events/page.tsx:90 | a payment of another event, or with any status but Paid, changes nothing wherever it sits in the list |
| EventsPage.WithoutOption | src/app/dashboard/events/page.tsx:127 | removing an option keeps exactly the other options; the list is unchanged when the option is absent |
| EventsPage.Toggled | src/app/dashboard/events/page.tsx:125-129 | a present option is removed everywhere and every other option keeps its membership; an absent option is appended at the end with the rest untouched |
| EventsPage.ToggleTwiceAbsent | src/app/dashboard/events/page.tsx:125-129 | toggling an absent option twice returns the original list exactly |
| EventsPage.ToggleTwicePresent | src/app/dashboard/events/page.tsx:125-129 | toggling a present option twice restores membership, with the option moved to the end |
| EventsPage.ToggledDistinct | src/app/dashboard/events/page.tsx:125-129 | toggling never creates a duplicate option |
| EventsPage.FormEventData | src/app/dashboard/events/page.tsx:142-150 | the saved data carries the form's options, category and cost, and its QR code URL is '' when no QR code is selected |
| EventsPage.SaveWrite | src/app/dashboard/events/page.tsx:152-169 | editing an event issues a merge on that event's id; creating one adds a record with `totalCollected = 0` and `totalPending = 0` |
| EventsPage.ApplyMerge | src/app/dashboard/events/page.tsx:154-158 | a merge replaces name, description, cost, deadline, payment options, QR URL and category with the form's values, and keeps the id and both totals |
| EventsPage.EditSaveRoundTrip | src/app/dashboard/events/page.tsx:109-158 | opening an event for edit and saving it untouched writes it back unchanged, except that a missing QR URL becomes '' |
| EventsPage.PaymentLink | src/app/dashboard/events/page.tsx:100-101 | the link begins with the origin and has the length of `origin/pay/<eventId>?classId=<classId>` |
| EventsPage.CopiedLink | src/app/dashboard/events/page.tsx:63-101 | the copied link carries the page's fixed class id `class-1`; the event id and that class id can be read back whenever the event id has no '?' |
| EventsPage.PaymentLinkRoundTrip | src/app/dashboard/events/page.tsx:101 | the event id and class id can be read back from the link whenever the event id contains no '?' |
| EventsPage.EventForm.constructor | src/app/dashboard/events/page.tsx:76-85 | the initial form state: closed, nothing selected, no options, category Normal, empty confirmation |
| EventsPage.EventForm.CreateNew | src/app/dashboard/events/page.tsx:117-123 | a new-event form has options `[Razorpay]`, no QR code, category Normal, no selected event, and is open |
| EventsPage.EventForm.Edit | src/app/dashboard/events/page.tsx:109-115 | the form takes the event's options, QR URL and category, and opens |
| EventsPage.EventForm.TogglePaymentOption | src/app/dashboard/events/page.tsx:125-129 | the options become `Toggled` of the old options |
| EventsPage.EventForm.ChooseCategory | src/app/dashboard/events/page.tsx:284 | the category select sets the category |
| EventsPage.EventForm.ChooseQrCode | src/app/dashboard/events/page.tsx:349 | the QR select sets the selected URL |
| EventsPage.EventForm.Save | src/app/dashboard/events/page.tsx:131-172 | nothing happens without a store; otherwise the write is `SaveWrite` of the form's data and the dialog closes |
| EventsPage.EventForm.OpenDeleteDialog | src/app/dashboard/events/page.tsx:174-177 | remembers the event to delete and opens the dialog |
| EventsPage.EventForm.TypeConfirmation | src/app/dashboard/events/page.tsx:478 | the confirmation input sets the typed text |
| EventsPage.EventForm.CancelDelete | src/app/dashboard/events/page.tsx:466-483 | Cancel clears the typed text, and the dialog closes |
| EventsPage.EventForm.ConfirmDelete | src/app/dashboard/events/page.tsx:179-187 | an event is deleted exactly when the text is "delete" (the button gate at line 486), the store is there and an event was chosen; the deleted id is that event's, and the dialog state is reset; a disabled button changes nothing, and an enabled one always closes the dialog |
| Dashboard.WithStatus | src/app/dashboard/page.tsx:50-55 | the status filter keeps exactly the payments whose status is in the given set |
| Dashboard.TotalCollected | src/app/dashboard/page.tsx:50-52 | 0 when the collection is not loaded or is empty |
| Dashboard.TotalPending | src/app/dashboard/page.tsx:53-55 | 0 when the collection is not loaded or is empty |
| Dashboard.TransactionCount | src/app/dashboard/page.tsx:117 | the number of payment records, or 0 when not loaded |
| Dashboard.TotalsStep | src/app/dashboard/page.tsx:50-55 | one more payment raises Total Collected by its amount exactly when it is Paid, and raises Total Pending exactly when it is Pending or Verification Pending |
| Dashboard.FailedCountsNowhere | src/app/dashboard/page.tsx:50-55 | a Failed payment changes neither total, wherever it sits |
| Dashboard.TotalsPartitionLedger | src/app/dashboard/page.tsx:50-55 | the two status filters are disjoint; with the Failed payments they partition the ledger, by amount and by count |
| Dashboard.SingleEventCollectedAgrees | src/app/dashboard/page.tsx:50-52 | over the payments of one event, the events page's collected figure equals the dashboard's Total Collected |
| PrintsPage.PrintEvents | src/app/dashboard/prints/page.tsx:57 | the print events are exactly the events whose lower-cased name contains "print" |
| PrintsPage.PrintEventByName | src/app/dashboard/prints/page.tsx:57 | an event whose lower-cased name starts with "print" is offered, whatever its category |
| PrintsPage.DistributedIds | src/app/dashboard/prints/page.tsx:63-65 | the ids listed are exactly the students with a record for the event |
| PrintsPage.WithoutIds | src/app/dashboard/prints/page.tsx:66 | keeps exactly the students whose id is not listed |
| PrintsPage.WithoutSameIds | src/app/dashboard/prints/page.tsx:66 | the filter depends on the id list only through membership |
| PrintsPage.WithoutIdsAppend | src/app/dashboard/prints/page.tsx:66 | the filter keeps the students' original order |
| PrintsPage.StudentsWhoPaid | src/app/dashboard/prints/page.tsx:59-67 | with no event chosen (undefined or '') the list is empty; otherwise it holds exactly the students with no record for that event |
| PrintsPage.OtherEventRecordsIgnored | src/app/dashboard/prints/page.tsx:63-64 | a record for another event never removes a student from the eligible list |
| PrintsPage.MatchingStudents | src/app/dashboard/prints/page.tsx:71-75 | keeps exactly the students whose lower-cased name or roll number contains the lower-cased query |
| PrintsPage.FilteredStudents | src/app/dashboard/prints/page.tsx:69-76 | an empty search returns the eligible list unchanged; otherwise it keeps exactly the matching eligible students |
| PrintsPage.NewRecord | src/app/dashboard/prints/page.tsx:82-89 | the record carries the student's id, name and roll, the event id, and the given id and time |
| PrintsPage.DistributedNoLongerEligible | src/app/dashboard/prints/page.tsx:63-90 | after a record is prepended, that student is no longer eligible for that event, and every other eligible student stays eligible |
| PrintsPage.EligibleDistributionKeepsLogUnique | src/app/dashboard/prints/page.tsx:59-90 | distributing to an eligible student keeps the log free of duplicate (student, event) pairs |
| PrintsPage.PrintPage.constructor | src/app/dashboard/prints/page.tsx:50-54 | the initial page state: nothing selected, empty search, the initial log |
| PrintsPage.PrintPage.SelectEvent | src/app/dashboard/prints/page.tsx:113-119 | only an offered print event can be chosen; the select sets the event and leaves the selected student as it was |
| PrintsPage.PrintPage.Search | src/app/dashboard/prints/page.tsx:146 | the search input sets the search text |
| PrintsPage.PrintPage.SelectStudent | src/app/dashboard/prints/page.tsx:151-158 | only a student in the shown (filtered) list can be picked, and picking selects it |
| PrintsPage.PrintPage.Distribute | src/app/dashboard/prints/page.tsx:80-98 | with a student and an event selected, exactly one record is prepended, the old records are kept, and the student and search are cleared; otherwise nothing changes |
| PrintsPage.PrintPage.DistributeEligible | src/app/dashboard/prints/page.tsx:80-98 | corrected distribution: it also requires the student to be eligible, and it keeps the log free of duplicate pairs |
| PrintsPage.StaleSelectionDuplicates | src/app/dashboard/prints/page.tsx:80-98 | for every student and every two distinct print events, a sequence of steps the page offers, through `Distribute` as written, leaves two records for the same student and event |
| PrintsPage.PrintNamed | src/app/dashboard/prints/page.tsx:57 | an event named "Lab Print A" is a print event, so the scenario above can be entered |
| PaymentEmails.Subject | src/ai/flows/payment-emails.ts:90 | the subject starts with `Your payment for "` and is as long as the quoted event name plus the kind's tail |
| PaymentEmails.SubjectRoundTrip | src/ai/flows/payment-emails.ts:90 | the event name can be read back out of either subject |
| PaymentEmails.SubjectsDiffer | src/ai/flows/payment-emails.ts:119 | a submitted subject never equals an approved subject |
| PaymentEmails.NewlinesToBreaks | src/ai/flows/payment-emails.ts:95 | the html has no newline left; a body without newlines is unchanged |
| PaymentEmails.BreaksRoundTrip | src/ai/flows/payment-emails.ts:95 | for a body without '<', turning each `<br>` back into a newline recovers the body |
| PaymentEmails.MailFor | src/ai/flows/payment-emails.ts:92-96 | the mail goes to the student's email, with the kind's subject, and its html is the body with every newline replaced by `<br>` |
| PaymentEmails.NewlinesToBreaksAppend | src/ai/flows/payment-emails.ts:95 | the replacement works piece by piece over concatenation, so it fixes the html for every body, including bodies that contain '<' |
| PaymentEmails.NewlinesToBreaksChar | src/ai/flows/payment-emails.ts:95 | a newline becomes exactly `<br>` and any other character is kept |
| PaymentEmails.Outcome | src/ai/flows/payment-emails.ts:98-100 | success exactly when the transport succeeds, with `Email successfully sent to <email>.`; on failure the transport's non-empty message or `Failed to send email.`; never an empty message |
| PaymentEmails.RunFlow | src/ai/flows/payment-emails.ts:83-101 | an empty body fails with `Failed to generate email content.` and sends nothing; otherwise exactly one mail is sent; at most one send per call; success exactly when the body is non-empty and the transport succeeds |
| PaymentEmails.SendPaymentConfirmationEmail | src/ai/flows/payment-emails.ts:77-102 | the one mail sent has subject `Your payment for "<event>" has been submitted` |
| PaymentEmails.SendPaymentApprovedEmail | src/ai/flows/payment-emails.ts:106-131 | the one mail sent has subject `Your payment for "<event>" has been approved!` |
| SettingsPage.WithoutQrCode | src/app/dashboard/settings/page.tsx:45 | after deleting an id no code has it, and every code with another id is kept |
| SettingsPage.WithoutQrCodeAppend | src/app/dashboard/settings/page.tsx:45 | the kept codes stay in their original relative order |
| SettingsPage.DeleteAbsentUnchanged | src/app/dashboard/settings/page.tsx:45 | deleting an id that no code has leaves the list unchanged |
| SettingsPage.DeleteIdempotent | src/app/dashboard/settings/page.tsx:44-46 | deleting an id twice is the same as deleting it once |
| SettingsPage.DeletesCommute | src/app/dashboard/settings/page.tsx:44-46 | two deletions give the same list in either order |
| SettingsPage.InitialCodes | src/app/dashboard/settings/page.tsx:35-38 | the initial list is exactly the two codes qr1 and qr2; deleting qr1 leaves only qr2 |
| SettingsPage.QrCodeList.constructor | src/app/dashboard/settings/page.tsx:41 | the list starts as the initial codes |
| SettingsPage.QrCodeList.Delete | src/app/dashboard/settings/page.tsx:44-46 | the list becomes `WithoutQrCode` of the old list, so no remaining code has the id |
| DashboardLayout.DashboardActiveExactly | src/app/dashboard/layout.tsx:57 | the Dashboard item is active if and only if the pathname is exactly `/dashboard` |
| DashboardLayout.OtherItemActiveByPrefix | src/app/dashboard/layout.tsx:57 | every other item is active if and only if the pathname starts with its href |
| DashboardLayout.HrefsDisjoint | src/app/dashboard/layout.tsx:41-47 | no non-dashboard href is a prefix of another |
| DashboardLayout.AtMostOneActive | src/app/dashboard/layout.tsx:41-57 | for every pathname at most one of the five items is active |
| DashboardLayout.SettingsPageActivatesOnlySettings | src/app/dashboard/layout.tsx:124 | on `/dashboard/settings` the Settings button is active and no navigation item is |
| DashboardLayout.EventsSubpageActivatesOnlyEvents | src/app/dashboard/layout.tsx:57 | `/dashboard/events/x` activates Events and no other item |

## Left out

- Firestore reads and writes (`useCollection`, `useMemoFirebase`, `addDocumentNonBlocking`, `setDocumentNonBlocking`, `deleteDocumentNonBlocking`) are remote I/O. Collections are input sequences (`Option` while not loaded), and writes are returned as `StoreWrite` values. Whether the store handle exists is a `storeReady` parameter.
- The language-model prompts (src/ai/flows/payment-emails.ts:30-74) and the SMTP transport (src/lib/email.ts) are external services. The generated body and the transport's result are parameters. A body the model returns as undefined is treated like the empty string.
- PaymentEmails.RunFlow: always returns an output. In the code, a rejected prompt call (src/ai/flows/payment-emails.ts:84, 113) throws out of the flow and no output is returned. Exceptions are outside the model.
- Date handling is not modelled: `Timestamp.fromDate`, `toLocaleDateString`, and the `Date.now()` and `new Date()` values in print records. Deadlines, record ids and timestamps are opaque strings passed in.
- The `Number` conversion of the cost field is not modelled: amounts and costs are integers.
- `navigator.clipboard`, toasts, dialogs' open/close animations and all rendering are presentation only. The settings page's "Save QR Code" button only closes its dialog, so it has no model.
- Payment approval, rejection and the status chosen when a payment is created are out of scope. The core pages do not implement them.
- Text.Lower: lower-cases only the ASCII letters A-Z. JavaScript's `toLowerCase` also folds other Unicode letters.
- EventsPage.CollectedForEvent: sums integers; JavaScript adds floating-point numbers, and the dashboard's `|| 0` also maps NaN to 0, which integers never produce.
- Dashboard.TotalCollected: the same integer simplification; `|| 0` on an integer sum is the sum itself.

## Findings

| source | as written | input that shows it | evidently intended | confidence | as-written member | corrected member |
|---|---|---|---|---|---|---|
| src/app/dashboard/prints/page.tsx:80-98 | `handleDistribute` checks only that a student and an event are selected. The event select (line 113) keeps the selected student, and the button (line 180) is enabled whenever a student is selected. | Select event B and distribute student S. Select event A and pick S from the list. Select event B again and press "Mark as Distributed". The log now holds two records for (S, B). | A student already recorded for the selected event cannot receive the print again. The page's student and event lists come from src/lib/data.ts, which are empty in this repository (data.ts:6, 8, 21), so the path is reached only once those lists hold data. | medium, not executed | PrintsPage.StaleSelectionDuplicates | PrintsPage.PrintPage.DistributeEligible |
