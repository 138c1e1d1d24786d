# EventHub core, modelled in Dafny

EventHub is a browser event-ticketing application. All of its state lives in
in-memory stores:

- **Event catalogue**: the canonical `events` list plus the `filteredEvents` list that is displayed.
- **Pending-review queue**: the organisers' `pendingEvents` and an id-to-status map.
- **Modification records**: diffs of edits, plus the rules that compute those diffs.
- **Activity log**: append-only.
- **Registrations**: with a payment-status table.
- **Administrator's store**: support tickets, approval records and dashboard figures.
- **User table**: simulated, behind sign-up and sign-in, with a lockout rule.

The pages act on those stores through short handler functions. Each handler is a sequence of store calls:

- approving or rejecting a queued event;
- creating an event;
- editing or deleting one from its card;
- cancelling a registration;
- answering a support ticket;
- submitting a query.

Pure rules decide the rest: the event filters, the search panel's suggestions, grouping and sorting on the category list, the organiser's dashboard, the pay-button and status-badge rules, the ticket filter, and the form validators.

The model follows the program's structure, one module per source file:

- **Each store is a `class`.** Its fields are `seq` and `map` values, and its actions are methods with `modifies` clauses. Each action's `ensures` ties the new state to a specification function of the old state.
- **The properties the application relies on are lemmas about those functions.** Examples: the version bump and snapshot on update, the one-entry-per-id queue, the open-ticket counter kept in step, the lockout after five failures, and the refund flag on cancellation.
- **Each handler is a method that takes the stores it touches as parameters.** Its contract states what every store holds afterwards.
- **Grouping and sorting stay imperative.** The category list's grouping is a loop building a map. Each group is sorted in place on an `array` by insertion sort. Both are proved against the functions that specify them.
- **Ids, timestamps, tokens and the current time are parameters.**

Data representation:

- **Dates and times** are integers.
- **Prices and capacities** are integers.
- **Form numbers** are `Num(int) | NaN`.
- **`Partial<Event>`** is a record of optional fields together with the order of its keys.

| Module | Source |
|---|---|
| `Common` | shared list and string helpers: `filter`, `find`, `slice`, `includes`, `trim`, `toLowerCase`, and `length` counted in UTF-16 code units as JavaScript counts it |
| `EventTypes` | `event.ts` |
| `RegistrationTypes` | `registration.ts` |
| `AdminTypes` | `admin.ts` |
| `EventStore` | `eventStore.ts` |
| `OrganizerStore` | `organizerStore.ts` |
| `ModificationStore` | `eventModificationStore.ts` |
| `LogStore` | `eventLogStore.ts` |
| `EventAudit` | `eventAudit.ts` |
| `EventFilters` | `eventFilters.ts` |
| `RegistrationStore` | `registrationStore.ts` |
| `AdminStore` | `adminStore.ts` |
| `AuthSchema` | `auth.ts` |
| `AuthValidation` | `authValidation.ts` |
| `EventValidation` | `eventValidation.ts` |
| `QueryForm` | `QueryForm.tsx` |
| `EventApprovals` | `EventApprovals.tsx` |
| `CreateEventPage` | `CreateEventPage.tsx` |
| `EventCard` | `EventCard.tsx` |
| `EventGroupList` | `EventGroupList.tsx` |
| `Dashboard` | `Dashboard.tsx` |
| `MyRegistrationsPage` | `MyRegistrationsPage.tsx` |
| `SupportTickets` | `SupportTickets.tsx` |
| `EventFilterPanel` | `EventFilter.tsx` |

Behaviour of the code that a reader might not expect, each proved in the model:

- **Pending queue ids.** `addPendingEvent` appends without checking for an entry with the same id (organizerStore.ts:29-39). Only `updatePendingEvent` and `removePendingEvent` keep the ids of the queue distinct (organizerStore.ts:41-50, 69-82), and the model proves that of those two (`OrganizerStore.Store.UpdatePendingEvent`, `OrganizerStore.Store.RemovePendingEvent`) and not of `AddPendingEvent`.
- **Deciding an edit.** After an approval or a rejection, the modification record updated is the one whose *id* equals the event id (EventApprovals.tsx:57-59, 91-93; eventModificationStore.ts:23-30). A pending record that only refers to the event keeps its status (`EventApprovals.DecisionMissesRecordsOfEvent`).
- **Log entries.** An edit or a deletion made with no signed-in user writes no log entry (EventCard.tsx:45-55, 64-74; `EventCard.HandleEdit`, `EventCard.HandleDelete`).
- **Price bounds.** In `eventFilters.ts` a bound typed as text that is not a number rejects every event (eventFilters.ts:31-32; `EventFilters.NaNBoundKeepsNothing`). In the store's `filterEvents` a bound of 0 or NaN filters exactly as an absent one (eventStore.ts:104-106; `EventStore.FalsyBoundsIgnored`).

## Model

| member | source | states |
|---|---|---|
| EventTypes.MergeGet | eventStore.ts:63-65 | `{ ...e, ...p }` reads each key from the partial when the partial has it and from the event otherwise |
| EventTypes.PresentKeysSpec | event.ts:3-21 | the keys of a record are listed once each and are exactly its present properties |
| EventTypes.AsPartialGet | EventApprovals.tsx:27-31 | `{ ...e }` read as a partial has exactly e's present properties with e's values |
| EventTypes.AsPartialWellFormed | event.ts:3-21 | a spread record is a well-formed object: its key list names exactly its present properties, once each |
| EventTypes.MergeWhole | eventStore.ts:63-65 | merging a whole record over another keeps only the target's properties the record lacks |
| EventStore.VisibleMeaning | eventStore.ts:135-146 | a visible event is never rejected; an `'Admin'` event is visible unless it has pending changes; any other organiser's event is visible iff approved |
| EventStore.VisibleWithinProjection | eventStore.ts:73-77 | `getVisibleEvents` is `updateEvent`'s projection further filtered, and the two differ exactly on `'Admin'` events with pending changes |
| EventStore.IndexOfId | eventStore.ts:60 | the first index with the id, or -1 exactly when no entry has it |
| EventStore.ReviseGet | eventStore.ts:60-66 | the revised record takes the partial's values except status, version, previous version and modification time; previousVersion is the old entry, version is the old one plus 1 whatever the partial says, status is the partial's or pending-changes |
| EventStore.UpdatedSpec | eventStore.ts:57-71 | updateEvent keeps the length, changes nothing on an unknown id, and otherwise replaces only the first matching entry by its revision |
| EventStore.WithoutIdSpec | eventStore.ts:83-91 | deleting removes every entry with the id, keeps every other entry with its multiplicity and order, and is idempotent |
| EventStore.AdjustedSpec | eventStore.ts:114-131 | only matching entries' ticket counts move, by exactly the signed quantity, with no bounds check; everything else is unchanged |
| EventStore.BookThenCancel | eventStore.ts:114-131 | a booking followed by a cancellation of the same quantity restores every count |
| EventStore.FalsyBoundsIgnored | eventStore.ts:104-106 | a minimum or maximum price of 0 or NaN gives the same result as no bound at all |
| EventStore.SearchMeaning | eventStore.ts:93-112 | an event passes filterEvents iff it passes the search, category and truthy price tests |
| EventStore.SearchEmpty | eventStore.ts:93-112 | criteria with nothing in force keep every event in order |
| EventStore.Store.constructor | eventStore.ts:36-37 | both lists start empty |
| EventStore.Store.SetEvents | eventStore.ts:39-43 | events is the list given and filteredEvents exactly its non-rejected entries, in order |
| EventStore.Store.AddEvent | eventStore.ts:45-55 | appends to events, and to filteredEvents iff not rejected; earlier entries untouched; no rejected event displayed |
| EventStore.Store.UpdateEvent | eventStore.ts:57-81 | events becomes the updated list and filteredEvents is recomputed as the not-rejected, approved-or-`'Admin'` entries |
| EventStore.Store.DeleteEvent | eventStore.ts:83-91 | both lists lose every entry with the id |
| EventStore.Store.FilterEvents | eventStore.ts:93-112 | filteredEvents is the visible events passing the criteria; events is unchanged; no rejected event displayed |
| EventStore.Store.UpdateTicketAvailability | eventStore.ts:114-131 | both lists move the matching counts by the signed quantity |
| EventStore.Store.GetEventById | eventStore.ts:133 | the first event with the id, none exactly when no entry has it |
| EventStore.Store.GetVisibleEvents | eventStore.ts:135-146 | every returned event is a stored, non-rejected one |
| EventStore.Store.ClearEvents | eventStore.ts:148-151 | both lists are emptied |
| EventStore.Store.FilterEventsEmpty | eventStore.ts:93-112 | with empty criteria filterEvents displays exactly getVisibleEvents |
| OrganizerStore.ReplacedHoldsOne | organizerStore.ts:69-82 | after a replacement the queue holds the supplied event as its only entry with the id, last, with the others in order |
| OrganizerStore.RemoveKeepsUnique | organizerStore.ts:41-50 | removal keeps ids unique |
| OrganizerStore.ReplaceKeepsUnique | organizerStore.ts:69-82 | replacement by an event with the same id keeps ids unique |
| OrganizerStore.Store.constructor | organizerStore.ts:25-26 | the queue and the status map start empty |
| OrganizerStore.Store.AddPendingEvent | organizerStore.ts:29-39 | appends without de-duplication; afterwards getEventStatus reports the id pending and every other id as before |
| OrganizerStore.Store.RemovePendingEvent | organizerStore.ts:41-50 | drops every entry with the id, getEventStatus answers as before for every id, ids stay unique |
| OrganizerStore.Store.UpdateEventStatus | organizerStore.ts:52-61 | afterwards getEventStatus returns the new status for the id and the old answer for every other id; the queue is untouched |
| OrganizerStore.Store.GetEventStatus | organizerStore.ts:66-67 | the status recorded for the id, none when it has none; what it answers after each change is stated by the ensures of AddPendingEvent, RemovePendingEvent, UpdateEventStatus and UpdatePendingEvent |
| OrganizerStore.Store.GetPendingEventById | organizerStore.ts:63-65 | the first queued entry with the id, or none |
| OrganizerStore.Store.UpdatePendingEvent | organizerStore.ts:69-82 | the queue is the replacement, getEventStatus reports the id pending and other ids as before, ids stay unique |
| ModificationStore.Settled | eventModificationStore.ts:23-30 | settling keeps the length and changes only records whose id matches |
| ModificationStore.SettledUnknown | eventModificationStore.ts:23-30 | an id no record carries is a no-op |
| ModificationStore.SettledLeavePending | eventModificationStore.ts:23-36 | a record just approved or rejected leaves the pending list, and nothing else does |
| ModificationStore.ByEventIdMeaning | eventModificationStore.ts:32-33 | the records for an event are exactly the ones with that event id |
| ModificationStore.Store.constructor | eventModificationStore.ts:16 | no records at first |
| ModificationStore.Store.AddModification | eventModificationStore.ts:18-21 | appends one record at the end |
| ModificationStore.Store.UpdateModificationStatus | eventModificationStore.ts:23-30 | records become the settled list; the count is kept; the pending list loses exactly the settled id |
| ModificationStore.Store.GetModificationsByEventId | eventModificationStore.ts:32-33 | returns exactly the stored records with that event id |
| ModificationStore.Store.GetPendingModifications | eventModificationStore.ts:35-36 | returns exactly the stored records still pending |
| LogStore.ViewsAfterAppend | eventLogStore.ts:14-23 | an append extends each per-event and per-user view by the entry when it matches and leaves it otherwise |
| LogStore.ByEventIdMeaning | eventLogStore.ts:19-20 | the per-event view holds exactly the entries for the event |
| LogStore.ByUserMeaning | eventLogStore.ts:22-23 | the per-user view holds exactly the user's entries |
| LogStore.Store.constructor | eventLogStore.ts:12 | the log starts empty |
| LogStore.Store.AddLog | eventLogStore.ts:14-17 | appends exactly one entry, earlier entries kept as a prefix |
| LogStore.Store.GetLogsByEventId | eventLogStore.ts:19-20 | returns exactly the stored entries with that event id |
| LogStore.Store.GetLogsByUser | eventLogStore.ts:22-23 | returns exactly the stored entries with that user id |
| EventAudit.ChangedFieldsMeaning | eventAudit.ts:16-23 | a key is reported iff the partial sets it, it is tracked (not id, version, previousVersion) and its value differs; each key once |
| EventAudit.NoChangeReported | eventAudit.ts:16-23 | a partial agreeing with the old event on every tracked key it sets reports nothing |
| EventAudit.SelfDiffEmpty | eventAudit.ts:16-23 | diffing an event against its own copy reports nothing |
| EventAudit.CreateEventModification | eventAudit.ts:6-35 | modifiedFields in the partial's key order; old and new values keyed by exactly those fields with the old and new values; event id, modifiedBy the user id, status pending |
| EventAudit.LogEventModification | eventAudit.ts:37-53 | appends one edited entry for the event by the modifier, details "Modified fields: " with the field names joined by ", " |
| EventAudit.DifferencesMeaning | eventAudit.ts:55-68 | a field is reported iff among the nine compared ones and differing; symmetric; empty on an event compared with itself |
| EventAudit.CompareEvents | eventAudit.ts:55-68 | the loop returns the differing compared fields in the fixed order |
| EventFilters.FilterEventsSubset | eventFilters.ts:14 | the result takes nothing new: an event occurs as often as in the input when it passes and not at all otherwise |
| EventFilters.BlankKeepsAll | eventFilters.ts:14-38 | all criteria blank keep the input as it is |
| EventFilters.FilterEventsMeaning | eventFilters.ts:14-38 | an event is kept iff search, inclusive date range, location substring, inclusive price range and exact category all hold |
| EventFilters.NaNBoundKeepsNothing | eventFilters.ts:22-32 | a bound that is not a number rejects every event |
| RegistrationStore.FindRegistration | registrationStore.ts:49-51 | the first registration with the id, none exactly when none has it |
| RegistrationStore.CancelledRecordSpec | registrationStore.ts:61-67 | refund pending iff the payment was made, not applicable otherwise; the other payment fields kept |
| RegistrationStore.CancelKeepsRegistration | registrationStore.ts:49-59 | cancelling keeps the registration findable with the same event and quantity, so a second cancel returns the tickets again |
| RegistrationStore.RepeatedCancel | registrationStore.ts:49-53 | two cancellations return the quantity twice |
| RegistrationStore.ViewsMeaning | registrationStore.ts:89-94 | per-user and per-event views hold exactly the matching registrations |
| RegistrationStore.Store.constructor | registrationStore.ts:29-30 | no registrations and no payment records at first |
| RegistrationStore.Store.AddRegistration | registrationStore.ts:33-47 | appends; afterwards getPaymentStatus gives the id a pending record and every other id its old answer |
| RegistrationStore.Store.CancelRegistration | registrationStore.ts:49-74 | unknown id changes nothing, tickets included; otherwise the tickets return to the event in both lists, the registration is marked cancelled and its payment record becomes the cancelled record |
| RegistrationStore.Store.GetRegistrationById | registrationStore.ts:95-96 | the first stored registration with the id, none exactly when no registration has it |
| RegistrationStore.Store.TransferRegistration | registrationStore.ts:76-87 | only matching registrations become transferred with the new attendee |
| RegistrationStore.Store.UpdateRegistrationPaymentStatus | registrationStore.ts:98-112 | the record for the id is replaced whole, dropping an earlier refund flag: getPaymentStatus returns the new record for the id and the old answer for every other id |
| RegistrationStore.Store.GetPaymentStatus | registrationStore.ts:114-115 | the payment record kept for the id, none when it has none; what it answers after each change is stated by the ensures of AddRegistration, CancelRegistration and UpdateRegistrationPaymentStatus |
| AdminStore.FindTicket | adminStore.ts:38-39 | the first ticket with the id, none exactly when none has it |
| AdminStore.Restatused | adminStore.ts:46-52 | status and updatedAt change on matching tickets only |
| AdminStore.RestatusedUnknown | adminStore.ts:46-52 | an unknown id leaves the tickets unchanged |
| AdminStore.RestatusedOpenCount | adminStore.ts:46-52 | with unique ids, restatusing one ticket moves the open count by [new is open] - [old was open] |
| AdminStore.DeltaMatchesCount | adminStore.ts:38-56 | with unique ids the counter's change equals the true change of the open count |
| AdminStore.StatusChangeKeepsStep | adminStore.ts:36-58 | with unique ids and a known id or a new status other than open, figures in step with the tickets stay in step after the status change |
| AdminStore.UnknownIdDesync | adminStore.ts:38-56 | an unknown id moved to open adds 1 to the counter while no ticket is open |
| AdminStore.WithMessageSpec | adminStore.ts:60-81 | the matching ticket gains exactly one message after the earlier ones, signed 'admin' or the ticket's user; others unchanged |
| AdminStore.Store.constructor | adminStore.ts:18-20 | no tickets, no approvals, no figures |
| AdminStore.Store.SetAdminStats | adminStore.ts:22 | the figures are replaced; tickets and approvals kept |
| AdminStore.Store.AddSupportTicket | adminStore.ts:24-34 | appends; with figures, the counter grows by 1 whatever the status; absent figures stay absent |
| AdminStore.Store.UpdateTicketStatus | adminStore.ts:36-58 | tickets restatused; figures become StatsAfterStatus: the counter moved by the delta, absent figures absent; in step when ids are unique and the id is known or the status is not open |
| AdminStore.Store.AddTicketMessage | adminStore.ts:60-81 | every ticket becomes its message-appended form; nothing else changes |
| AdminStore.Store.ApproveEvent | adminStore.ts:83-95 | appends one approved record reviewed by 'admin' |
| AdminStore.Store.RejectEvent | adminStore.ts:97-109 | appends one rejected record reviewed by 'admin' |
| AdminStore.Store.GetOpenTicketsCount | adminStore.ts:111-113 | counts only tickets exactly open, at most all tickets |
| AuthSchema.PasswordIssuesMeaning | auth.ts:3-9 | accepted iff at least 8 UTF-16 code units long with an upper-case letter, a lower-case letter, a digit and a special character; each message present iff its rule fails |
| AuthSchema.NoSpecialCharacter | auth.ts:5-9 | "Password1" fails on the special character alone |
| AuthSchema.AdminPasswordAccepted | auth.ts:3-9 | the seeded administrator's password meets the policy |
| AuthSchema.AstralPasswordAccepted | auth.ts:3-9 | length is counted in UTF-16 code units: six characters, two of them outside the Basic Multilingual Plane, make an acceptable 8-unit password |
| AuthSchema.AuthIssuesMeaning | auth.ts:11-17 | the form passes iff the e-mail is well formed, the password passes, and name and phone, when present, are at least 2 and 10 UTF-16 code units long |
| AuthValidation.AfterFailuresSpec | authValidation.ts:52-59 | a run of failures counts each one and stamps the last time |
| AuthValidation.FiveFailuresLock | authValidation.ts:27-41 | five failures from a clean record lock the account iff less than 15 minutes have passed since the last |
| AuthValidation.FourFailuresDoNotLock | authValidation.ts:27-41 | four failures never lock |
| AuthValidation.LockedReplyMatchesLock | authValidation.ts:112-127 | the wrong-password reply says "Account locked" exactly when the failure brings the count to 5 or more, and otherwise reports the attempts left |
| AuthValidation.UserTable.constructor | authValidation.ts:3-25 | the table holds only the seeded administrator |
| AuthValidation.UserTable.Register | authValidation.ts:61-93 | a known e-mail fails with "Email already registered" and changes nothing; otherwise one non-admin user with no failures is added; only the seed is ever admin |
| AuthValidation.UserTable.Login | authValidation.ts:95-141 | locked: fails, nothing changes; unknown: "Invalid email or password", nothing changes; wrong password: one more failure stamped now; right password: failures reset and the stored id, name and admin flag returned |
| EventValidation.PriceIssuesMeaning | eventValidation.ts:11-14 | the price passes iff it is a number in [0, 1000000] |
| EventValidation.CapacityIssuesMeaning | eventValidation.ts:17-20 | the capacity passes iff it is a whole number in [1, 100000] |
| EventValidation.EventIssuesMeaning | eventValidation.ts:3-20 | the form passes iff title and location are at least 5 UTF-16 code units long, the description 20, the date is after now, the category is non-empty, the image URL is well formed and price and capacity pass |
| QueryForm.QueryIssues | QueryForm.tsx:11-28 | the query passes iff the subject is one of the nine listed and the description is at least 20 UTF-16 code units long |
| QueryForm.UserIdOrGuest | QueryForm.tsx:42-46 | the user's id when there is a user with a non-empty id, and 'guest' exactly otherwise |
| QueryForm.NewTicketSpec | QueryForm.tsx:39-57 | the ticket is open, of medium priority, owned by the user or guest, with exactly one non-admin initial message carrying the description and the ticket's user id |
| QueryForm.OnSubmit | QueryForm.tsx:38-59 | exactly one ticket is appended; the counter stays in step |
| EventApprovals.ApprovedEditFields | EventApprovals.tsx:24-31 | approving an edit writes the queued copy's tracked fields over the stored event, approved, with the stored event as previous version |
| EventApprovals.HandleApprove | EventApprovals.tsx:20-61 | no user or no queued entry: nothing changes; otherwise the stored event is updated (or the queued copy added approved with version 1), the id leaves the queue, its status becomes approved, one approved entry is logged, and the modification status is set only for an edit |
| EventApprovals.HandleReject | EventApprovals.tsx:63-95 | no user or no queued entry: nothing changes; otherwise an edit's previous version is written back approved with the next version, a new event leaves the catalogue untouched, the id leaves the queue as rejected, one rejected entry is logged |
| EventApprovals.DecisionMissesRecordsOfEvent | EventApprovals.tsx:57-59 | the status update is keyed by the event id, so it leaves records whose own id differs untouched |
| EventApprovals.ModificationDetailsMeaning | EventApprovals.tsx:97-101 | no panel exactly when there is no previous version or it agrees with the event on every compared field; otherwise the panel lists exactly the compared fields that differ |
| EventApprovals.UnchangedEditShowsNothing | EventApprovals.tsx:97-101 | an edit changing none of the compared fields shows no panel |
| CreateEventPage.NewEventSpec | CreateEventPage.tsx:30-37 | the new event carries the draft unchanged, is organised by the submitter, has every ticket available and no review history |
| CreateEventPage.NewEventVisibility | CreateEventPage.tsx:30-40 | a new event is publicly visible iff its organiser is 'Admin', and it is never rejected |
| CreateEventPage.HandleSubmit | CreateEventPage.tsx:30-62 | no user: nothing changes; admin: only the catalogue gains the event; otherwise only the queue gains it, pending; one created entry logged with the matching details |
| EventCard.EditorName | EventCard.tsx:39 | the user's name when there is a user with a non-empty name, otherwise 'Unknown'; the result is 'Unknown' exactly then or when the user's name is itself 'Unknown' |
| EventCard.StoredAfterEdit | EventCard.tsx:31-47 | the stored event takes the draft's fields, the card's id and organiser, pending changes, the next version and the stored record as previous version; a zero capacity keeps the ticket count |
| EventCard.QueuedAfterEdit | EventCard.tsx:31-55 | the queued copy keeps the card's version and has the card's event as previous version; it agrees with the stored copy on every field the draft sets, on the ticket count, status and last-modified fields |
| EventCard.HandleEdit | EventCard.tsx:31-58 | the catalogue is updated with the edit, the queue holds the edited copy pending, and one edited entry is logged only for a signed-in user |
| EventCard.HandleDelete | EventCard.tsx:60-76 | declined: nothing changes; confirmed: the event leaves both lists, and a deleted entry is logged for a signed-in user |
| EventCard.RegisterButtonMeaning | EventCard.tsx:78-93 | the register button shows iff the event is approved and the viewer is a visitor or an ordinary non-organiser; disabled iff no ticket is left |
| EventCard.ControlsExcludeRegistration | EventCard.tsx:78-85 | nobody sees both the controls and the register button |
| EventCard.PendingBadgeMeaning | EventCard.tsx:88-93 | a pending card renders nothing outside a pending list and carries a badge inside one; others carry none |
| EventCard.OverbookedButton | EventCard.tsx:153-166 | a negative ticket count gives an enabled button labelled "Sold Out" |
| EventGroupList.KeptEventsMeaning | EventGroupList.tsx:14-21 | with pending status shown every non-rejected event is kept, otherwise only approved ones, in order |
| EventGroupList.CategoriesOfMeaning | EventGroupList.tsx:24-30 | the group order lists each category of the kept events once, and only those |
| EventGroupList.GroupSizesTotal | EventGroupList.tsx:24-30 | the group sizes sum to the number of kept events |
| EventGroupList.NoEmptyGroups | EventGroupList.tsx:40-50 | every listed group is non-empty |
| EventGroupList.NoEventsFound | EventGroupList.tsx:40-50 | there is no group exactly when no event is kept |
| EventGroupList.GroupStep | EventGroupList.tsx:24-30 | one reduce step: an event of a seen category joins its group, one of a new category opens a group at the end |
| EventGroupList.GroupByCategory | EventGroupList.tsx:24-30 | the reduce loop builds one group per category, each holding exactly that category's events in order |
| EventGroupList.Swap | EventGroupList.tsx:33-37 | exchanges two cells, keeping the multiset |
| EventGroupList.Insert | EventGroupList.tsx:33-37 | inserts one event into the sorted prefix, newest first, keeping the multiset |
| EventGroupList.SortNewestFirst | EventGroupList.tsx:33-37 | the array ends sorted by date, newest first, and is a permutation of its old contents |
| EventGroupList.SortedGroup | EventGroupList.tsx:33-37 | a sorted copy of one group, newest first, same multiset |
| EventGroupList.SortGroups | EventGroupList.tsx:33-37 | every group sorted, same keys and multisets |
| EventGroupList.GroupedEvents | EventGroupList.tsx:14-50 | kept events grouped by category in first-appearance order, each group non-empty, sorted newest first and a permutation of its category's kept events |
| Dashboard.CountDisjoint | Dashboard.tsx:27-36 | three mutually exclusive tests count at most the whole list |
| Dashboard.StatsWithinOwnEvents | Dashboard.tsx:27-36 | the catalogue share of the pending count plus the approved and rejected counts never exceed the user's catalogue events |
| Dashboard.PendingCountsTwice | Dashboard.tsx:27-36 | an edit in the queue whose catalogue copy has pending changes is counted twice though listed once |
| Dashboard.LastWithIdMeaning | Dashboard.tsx:49-57 | the last entry with an id exists iff some entry has it, and is one of the entries |
| Dashboard.DedupRepresents | Dashboard.tsx:49-57 | the Map's values hold every id once, each with its last value |
| Dashboard.MapSetStep | Dashboard.tsx:49-57 | one Map set keeps each id once with its last value and every id given so far |
| Dashboard.MergedEntriesOwn | Dashboard.tsx:49-57 | a merged entry is one of the user's own catalogue or queued events |
| Dashboard.MergedEntriesCover | Dashboard.tsx:49-57 | every id among the user's catalogue and queued events has a merged entry |
| Dashboard.MergedEntriesPreferQueue | Dashboard.tsx:49-57 | for an id in the user's queue, the merged entry is the last queued copy |
| Dashboard.MergedEventsMeaning | Dashboard.tsx:49-57 | the merged list holds only the user's events, each id once, every id the user has, and the queued copy for an id in the queue |
| Dashboard.RecentActivityMeaning | Dashboard.tsx:59 | at most five of the user's entries, the earliest in log order, five whenever there are five, empty iff the user has none |
| MyRegistrationsPage.ListedMeaning | MyRegistrationsPage.tsx:22-24 | the page lists exactly the signed-in user's registrations, or the guest ones |
| MyRegistrationsPage.ShowPayButtonMeaning | MyRegistrationsPage.tsx:44-50 | the pay button shows iff not cancelled and no payment or a pending or failed one; never once paid |
| MyRegistrationsPage.RegistrationLabelMeaning | MyRegistrationsPage.tsx:52-104 | the cancelled badge takes precedence; otherwise paid, pending and failed give Booked, Payment Pending and Payment Failed, and no payment status no badge |
| MyRegistrationsPage.PayButtonAgreesWithLabel | MyRegistrationsPage.tsx:44-104 | a registration offered payment is never labelled booked or cancelled |
| MyRegistrationsPage.CancelledRegistrationView | MyRegistrationsPage.tsx:52-77 | after cancelling, the badge reads cancelled, with the refund note exactly when it had been paid, and no pay button shows |
| MyRegistrationsPage.ConfirmCancellation | MyRegistrationsPage.tsx:39-42 | one store cancellation, and the dialog is closed |
| SupportTickets.FilteredTicketsMeaning | SupportTickets.tsx:23-27 | 'all' lists every ticket in order; 'open' exactly the open and in-progress ones; 'closed' exactly the resolved ones |
| SupportTickets.FilterCounts | SupportTickets.tsx:23-27 | the 'open' list is the open-count plus the in-progress count, and with 'closed' covers every ticket |
| SupportTickets.BadgeWithinOpenList | SupportTickets.tsx:24 | the badge never exceeds the 'open' list and equals it iff no ticket is in progress |
| SupportTickets.HandleSendReply | SupportTickets.tsx:12-17 | a non-blank reply is added untrimmed as the administrator's message and the box cleared; a blank one changes nothing |
| SupportTickets.SendableMeaning | SupportTickets.tsx:13 | a reply is sent iff it has a character other than whitespace |
| SupportTickets.HandleStatusChange | SupportTickets.tsx:19-21 | the store's status update, keeping the counter in step under its conditions |
| EventFilterPanel.ParseNumberRoundTrip | EventFilter.tsx:44-45 | `Number` reads back every natural number written in decimal |
| EventFilterPanel.ParseNegativeRoundTrip | EventFilter.tsx:44-45 | `Number` reads back every negative number written in decimal |
| EventFilterPanel.SuggestionsMeaning | EventFilter.tsx:25-38 | at most five suggestions, shown iff the search is at least two UTF-16 code units long, a prefix of the matching events, five whenever five match; nothing else changes |
| EventFilterPanel.SuggestionsMatch | EventFilter.tsx:27-31 | every suggestion is a store event whose title, description or location contains the search, ignoring case |
| EventFilterPanel.SyncIdempotent | EventFilter.tsx:25-38 | recomputing the suggestions twice is recomputing them once |
| EventFilterPanel.HandleFilterMeaning | EventFilter.tsx:40-47 | search passed as typed; empty category and price boxes left out; a whole number typed arrives as that number |
| EventFilterPanel.FalsyPriceNoBound | EventFilter.tsx:44 | a minimum price of 0 or non-numeric text sets no bound in the store |
| EventFilterPanel.ClearKeepsAll | EventFilter.tsx:49-54 | clearing empties every box and sends a request that keeps every event, and hides the suggestions |
| EventFilterPanel.SelectKeepsPicked | EventFilter.tsx:56-60 | picking a suggestion puts its title in the box, hides the list, and the picked event passes the resulting filter |

## Left out

- Subscriber sets and notification callbacks, and `persist` with its storage keys: no stateable result, storage I/O.
- The Razorpay payment flow, the effects that write payment status from it, the success page, the asynchronous book-then-pay flow of the registration dialog (with its 1.5 VIP price factor, which is floating point) and the mock e-mail sender: foreign script and asynchronous callbacks.
- `Math.random`, `nanoid`, `new Date()`, `Date.now()` and token generation: every id, token and time is a parameter.
- `new Date(text)` parsing: dates and times are integers, and "in the future" compares integers.
- zod's `.url()` and `.email()`: well-formedness checks passed in as predicates.
- `toLowerCase` maps only the ASCII letters; other Unicode case mappings are not modelled.
- `Common.Trim` removes the common whitespace characters, not every Unicode space separator.
- `EventFilterPanel.ParseNumber` reads integers only (an optional minus sign and digits; blank is 0; anything else is NaN). Fractions, exponents, a leading `+`, hexadecimal and `Infinity` are not modelled. Numbers are integers throughout, so fractional prices are not modelled.
- A `Partial<Event>` cannot hold a key that is present with the value `undefined`. Its key order for a spread record is the interface's declaration order.
- `EventGroupList.SortNewestFirst` proves sortedness and permutation; it does not state stability among events with the same date (the source's `sort` is stable).
- `EventGroupList.SortedGroup` inherits this: a group ends newest first and holds the same events, but the order of events with the same date is not stated.
- `EventGroupList.SortGroups` inherits this for every group it sorts.
- `EventGroupList.GroupedEvents` inherits this: the order of same-date events within a group is not stated.
- `Dashboard.MergedEventsMeaning` does not state the order of the merged list (first appearance of each id).
- Dashboard: the page is drawn only for a signed-in user, so the model's functions take that user and the signed-out case is not modelled.
- `EventFilterPanel.SyncSuggestions`: the input's focus handler reopens the list and its blur handler hides it after a 200 ms timer; focus, blur and timers are not modelled.
- The pick handler and the suggestions effect are modelled separately. When a pick changes the search text, the effect runs after it; the model does not compose the two.
- `AuthValidation.getAllUsers`: console output only.
- Pure presentation and animation components, routing and navigation.
- The category page, the event list and the query list: their one-line filters and de-duplication repeat rules modelled for the group list, the dashboard and the query form.
- The category overview: a constant list and navigation.
- Object aliasing and immer drafts: every store update is modelled as the new value it produces.
