# BillSplitter, modelled in Dafny

BillSplitter turns a photographed restaurant receipt into payment requests.
A language model reads the receipt text into lines and amounts. The user
corrects them on a review screen and picks who paid. On the assignment
screen the user ticks, for every item, the people who shared it. The
backend then creates one *split* per person: what that person owes the
payer. Each split is the person's equal parts of the items they shared,
plus a part of the order's fees (tax, delivery fee and tip, less the
discount) in proportion to their item subtotal, rounded to cents. The last
screen lists the splits. From there a split can be marked paid, and
WhatsApp/SMS reminders go out one at a time or to everyone who still owes.

The model covers these modules:

- `Domain` — the rows of the orders, items, users and splits tables; the
  parsed receipt; small sequence helpers (`Dedup`, `NoDups`, `Join`).
- `Ledger` — an insertion-ordered dictionary of amounts. It is the Python
  dict filled with `setdefault`/`+=`, and the JavaScript record filled with
  `r[k] = (r[k] || 0) + x`.
- `Allocation` — the arithmetic of `create_bulk_splits`:
  - the accumulation loop and the fee shares;
  - the created rows;
  - conservation of money before rounding;
  - exactly who gets a split, and for how much.
- `SplitsRouter` — the split routes, as a `SplitStore` class over the
  tables: mark paid, remind one split, remind all, create in bulk.
- `ItemAssignment` — the assignment screen (`AssignmentEditor`): toggling
  people on items, even split, clear, the live preview and the save.
- `CrossCheck` — that screen's preview and the server's allocation agree.
  Before rounding, the amount under a person's badge is the amount the
  server computes for them.
- `SplitReview` — the last screen (`SplitReviewPanel`): outstanding and
  settled lists, per-item shares, the fee residual, and the three buttons.
- `ParsedReceipt` — the review screen (`ReceiptEditor`): editing lines and
  amounts, and choosing the payer.
- `Wizard` — the page that drives the four steps (`Home`) and its step
  indicator.
- `Badges` — the colour and the initials drawn for each person.
- `LlmService` — the clean-up of the language model's reply before it is
  decoded as JSON (Markdown code fences and whitespace).

Inputs from outside the program are parameters:

- the SMS gateway is `send: Reminder -> Delivery`;
- the clock is `now`;
- Python's `round(·, 2)` is `roundCents`;
- each `fetch` outcome is a datatype argument of the handler that awaits
  it (`SaveResponse`, `OrderOutcome`, `SendAllOutcome`, `Option<Split>`).

## Model

| member | source | states |
|---|---|---|
| Domain.NetFees | backend/routers/splits.py:231 | with no fee columns the fees are 0; with no discount they are tax + delivery fee + tip, each missing value counting as 0 |
| Domain.Dedup | backend/routers/splits.py:224-225 | keeps each element once, at its first occurrence: the result has no repeats and holds exactly the elements of the input |
| Domain.DedupSnoc | backend/routers/splits.py:224-225 | appending an element already present leaves the de-duplicated list as it was; a new element goes to its end |
| Domain.DedupOfNoDups | backend/routers/splits.py:224-225 | a list without repeats is its own de-duplication |
| Domain.Join | frontend/app/components/ItemAssignment.tsx:32 | joining no pieces gives the empty string; joining one piece gives that piece |
| Domain.LineTotal | backend/routers/splits.py:219 | `price * quantity`; `Allocation.SharesConserveLineTotals` and `ItemAssignment.EvenPartsAddUp` prove that the per-user parts of an item add back up to it |
| Domain.OrderFees | backend/routers/splits.py:231 | the order row's net fees; `NetFees` treats each missing amount as 0, and `Wizard.PayloadKeepsFees` shows a saved order gives the fees the screen showed |
| Domain.OrZero | backend/routers/splits.py:231 | a missing fee column counts as 0; its part in the fee formula is stated by `Domain.NetFees` |
| Domain.Truthy | backend/routers/splits.py:84 | Python truthiness of an optional string: present and non-empty; the preferences it decides are stated by `SplitsRouter.RecipientPhone` and `SplitsRouter.PaymentMethod` |
| Ledger.Total | backend/routers/splits.py:230 | `sum(user_subtotals.values())`, each key once; `Ledger.Add` proves one credit adds exactly its amount, and `Allocation.SharesConserveLineTotals` that the total is the valid line totals |
| Ledger.Add | backend/routers/splits.py:221-223 | `setdefault` then `+=`: only key k changes, and by x; a new key goes to the end of the key order; the total grows by x |
| Ledger.SumOverIgnores | backend/routers/splits.py:230 | writing a key outside the summed keys leaves the sum unchanged |
| Ledger.SumOverBump | backend/routers/splits.py:223 | adding x to one listed key adds x to the sum |
| Ledger.SumOverScaled | backend/routers/splits.py:238 | scaling every summand by c scales the sum by c |
| Ledger.SumOverAdded | backend/routers/splits.py:243 | the sum of pointwise sums is the sum of the two sums |
| Ledger.SumOverZero | backend/routers/splits.py:238 | a family that is 0 on every key sums to 0 |
| Allocation.ItemMap | backend/routers/splits.py:208-209 | every item of the order is reachable by its id, and every entry is an item of the order stored under its own id |
| Allocation.EqualShares | backend/routers/splits.py:219-220 | one credit per user entry of the assignment |
| Allocation.PerUserCost | backend/routers/splits.py:219 | the line total divided by the number of user entries; `SharesOfAssignment` proves that these parts, one per entry, make up the line total, and `CrossCheck.ReviewShareMatchesServer` that the review screen shows the same part |
| Allocation.Credit | backend/routers/splits.py:221-225 | one pass of the inner loop keeps the two dicts keyed by the same users |
| Allocation.Allocate | backend/routers/splits.py:211-225 | the dicts after the whole loop have the same keys, listed once each |
| Allocation.AccumulateAssignments | backend/routers/splits.py:211-225 | the loop's two dicts are exactly the allocation of the request |
| Allocation.CreditUsers | backend/routers/splits.py:219-225 | the inner loop over one assignment's user entries replays that assignment's credits onto the dicts |
| Allocation.AllocateFacts | backend/routers/splits.py:211-230 | the subtotals form a valid dict; they add up to the line totals of the valid assignments; they are empty exactly when no assignment is valid |
| Allocation.SharesOfAssignment | backend/routers/splits.py:216-220 | a valid assignment credits each user entry the line total divided by the number of entries, and the credits make up the line total; a skipped assignment credits nothing |
| Allocation.SharesConserveLineTotals | backend/routers/splits.py:215-225 | conservation of item cost: the credits of a request add up to the line totals of its valid assignments |
| Allocation.SkippedAssignmentsChangeNothing | backend/routers/splits.py:216-218 | a request allocates exactly what its valid assignments alone allocate |
| Allocation.UncreditedUser | backend/routers/splits.py:221-225 | a user who is never credited owes nothing and has no items |
| Allocation.ReplayMeaning | backend/routers/splits.py:221-225 | replaying credits from empty dicts gives: keys = credited users in order of first credit; each subtotal = sum of the user's credits; each item list = the user's credited items without repeats, in first-credit order; total = sum of all credits |
| Allocation.AllocationMeaning | backend/routers/splits.py:211-230 | the same for a whole request; the item lists have no repeats, and the subtotals add up to the valid line totals |
| Allocation.NothingValidMeansNoUsers | backend/routers/splits.py:227-228 | `user_subtotals` is empty (the 400 case) exactly when no assignment names an order item and at least one user |
| Allocation.RateTimes | backend/routers/splits.py:238 | a fee share is the fee rate times the subtotal; at the whole subtotal it is all of the fees |
| Allocation.FeeSharesConserve | backend/routers/splits.py:230-243 | with a positive total subtotal, the proportional fee shares add up to the fees, and the unrounded amounts add up to subtotal + fees |
| Allocation.FeeShare | backend/routers/splits.py:238 | `fees * (subtotal / total_subtotal)`, or 0 without a positive total; its meaning is stated by `FeeShareVanishes`, `RateTimes`, `WholeSubtotalOwesAllFees` and `FeeSharesConserve` |
| Allocation.FeeShareVanishes | backend/routers/splits.py:238 | no fee share when the total subtotal is not positive, and none for a zero subtotal |
| Allocation.Unrounded | backend/routers/splits.py:238-243 | subtotal plus fee share; its meaning is stated by `NoFeesOwesSubtotal`, `WholeSubtotalOwesAllFees`, `UnroundedMeaning` and `FeeSharesConserve` |
| Allocation.NoFeesOwesSubtotal | backend/routers/splits.py:238-243 | with no fees a user owes exactly their subtotal |
| Allocation.WholeSubtotalOwesAllFees | backend/routers/splits.py:230-243 | a user who holds the whole positive subtotal owes it plus all the fees |
| Allocation.NewSplit | backend/routers/splits.py:239-245 | the new row belongs to that user and that order, is unpaid, and has no reminder flag, reminder time or message id |
| Allocation.Present | backend/routers/splits.py:234-237 | the credited users that have a user row, in key order; a user without one is skipped |
| Allocation.PresentAll | backend/routers/splits.py:235-237 | when every credited user exists, nobody is skipped |
| Allocation.BuildSplits | backend/routers/splits.py:233-247 | the creation loop builds exactly `CreatedSplits` |
| Allocation.CreatedFromRows | backend/routers/splits.py:234-247 | the k-th created row is the new row of the k-th existing credited user, with the k-th fresh id |
| Allocation.CreatedSplits | backend/routers/splits.py:233-247 | one row per existing credited user, in key order, with consecutive ids, for this order, unpaid and not reminded |
| Allocation.CreditedUsers | backend/routers/splits.py:215-225 | a user is credited exactly when some valid assignment lists them |
| Allocation.CreditedItems | backend/routers/splits.py:224-225 | a user's credited item ids are exactly the items of the valid assignments that list them |
| Allocation.AllocatedUsers | backend/routers/splits.py:221 | the users with a subtotal are exactly the users some valid assignment lists |
| Allocation.CreatedForPresent | backend/routers/splits.py:234-247 | a user has a created split exactly when they are a credited user with a user row |
| Allocation.CreatedSplitsUsers | backend/routers/splits.py:215-247 | the created splits go to exactly the existing users that some valid assignment lists |
| Allocation.CreatedSplitsDistinct | backend/routers/splits.py:234 | no user gets two splits |
| Allocation.CreatedSplitAmount | backend/routers/splits.py:238-243 | each split owes the rounded sum of its user's equal parts and their proportional share of the fees, the proportion taken over the valid line totals |
| Allocation.CreatedSplitItems | backend/routers/splits.py:224-225 | each split lists its user's valid assigned items once each, in order of first assignment |
| Allocation.UnroundedMeaning | backend/routers/splits.py:238-243 | before rounding, a credited user owes their credits plus their proportional fee share |
| Allocation.AllocationEntry | backend/routers/splits.py:221-225 | one credited user's subtotal and items, as `AllocationMeaning` states them |
| Allocation.CreatedSplitRow | backend/routers/splits.py:239-245 | the k-th split is a credited user's row: their items, and the rounded unrounded amount |
| Allocation.PresentNoDups | backend/routers/splits.py:234 | filtering distinct keys keeps them distinct |
| Allocation.RequestConservesMoney | backend/routers/splits.py:215-243 | conservation of money for a whole request: with positive valid line totals, the unrounded amounts add up to those line totals plus the fees |
| SplitsRouter.ItemsOfOrder | backend/routers/splits.py:208 | exactly the item rows of the order |
| SplitsRouter.SplitsOf | backend/routers/splits.py:129 | exactly the split rows of the order |
| SplitsRouter.WithoutOrder | backend/routers/splits.py:205 | the delete removes exactly the order's rows |
| SplitsRouter.FindSplit | backend/routers/splits.py:44 | finds a row with the requested id, or reports that no row has it |
| SplitsRouter.ItemNames | backend/routers/splits.py:78-81 | the names of exactly the table's items whose id the split lists, at most one per row |
| SplitsRouter.RecipientPhone | backend/routers/splits.py:84 | a present, non-empty WhatsApp number is used, otherwise the phone, so a user with a phone never gets an empty recipient (the same rule again at line 154) |
| SplitsRouter.PaymentMethod | backend/routers/splits.py:87 | never empty: the payer's handle when present and non-empty, otherwise "Venmo/Zelle/Cash" (the same rule again at line 157) |
| SplitsRouter.ReminderFor | backend/routers/splits.py:159-167 | the reminder goes to the split's user at `RecipientPhone`, for the split's amount, with the payer's name and the restaurant, and always names a way to pay; its item list is `ItemNames` of the split's ids, exactly the names of the table's items listed in the split |
| SplitsRouter.Reminded | backend/routers/splits.py:185-187 | the reminder flag, the time and the message id are set; every other column is kept |
| SplitsRouter.Targets | backend/routers/splits.py:169 | `split_map`, filled one reminder at a time; which phones it holds and which split each leads to is stated by `SplitsRouter.TargetsLastWins` |
| SplitsRouter.Deliver | backend/services/sms_service.py:19-93 | the result echoes the reminder's recipient phone on every branch, with the gateway's status and message id |
| SplitsRouter.Deliveries | backend/services/sms_service.py:96-120 | one result per reminder, in order, each echoing its reminder's phone |
| SplitsRouter.PendingOf | backend/routers/splits.py:137-169 | at most one reminder per split |
| SplitsRouter.Reminders | backend/routers/splits.py:168 | the reminders of the pending list, in order |
| SplitsRouter.TargetsLastWins | backend/routers/splits.py:169 | `split_map` holds exactly the reminded phones, and each phone leads to the split of the last reminder for it (two unpaid splits for one phone: only the later one is reachable) |
| SplitsRouter.MarkById | backend/routers/splits.py:184-187 | marking a split reminded changes exactly the row with that id |
| SplitsRouter.ApplyResults | backend/routers/splits.py:181-187 | the result loop keeps every row's non-reminder columns and leaves rows that are not targets untouched |
| SplitsRouter.CollectReminders | backend/routers/splits.py:137-169 | the selection loop builds exactly the pending reminders and `split_map` |
| SplitsRouter.ApplyDeliveries | backend/routers/splits.py:181-187 | the result loop computes exactly `ApplyResults` |
| SplitsRouter.PendingSelection | backend/routers/splits.py:137-169 | reminders go to exactly the unpaid splits whose user exists; each is built from its split, its user and the payer |
| SplitsRouter.ApplyResultsMarks | backend/routers/splits.py:181-187 | after the loop, a row is reminded exactly when it already was or a "sent" result's recipient leads to it |
| SplitsRouter.TargetsAreUnpaid | backend/routers/splits.py:137-169 | every split reachable through `split_map` is an unpaid split of the order |
| SplitsRouter.WithoutOrderIncreasing | backend/routers/splits.py:205 | deleting rows keeps the ids increasing |
| SplitsRouter.BulkKeepsValid | backend/routers/splits.py:205-249 | deleting an order's rows and appending rows with fresh consecutive ids keeps the ids increasing and below the next id |
| SplitsRouter.UntouchedBySendAll | backend/routers/splits.py:137-187 | send-all never targets a paid split or a split of another order |
| SplitsRouter.SplitStore.constructor | backend/routers/splits.py:41-252 | empty split table; first id 1 |
| SplitsRouter.SplitStore.MarkSplitPaid | backend/routers/splits.py:41-51 | 404 "Split not found" leaves the table unchanged; otherwise only that row's paid status changes, and the updated row is returned |
| SplitsRouter.SplitStore.SendReminderForSplit | backend/routers/splits.py:54-112 | the four 404s in order (split, user, order, payer) change nothing; otherwise the reminder built from the split's user and payer is sent, and only a "sent" result marks the row with the time and message id |
| SplitsRouter.SplitStore.SendAllReminders | backend/routers/splits.py:115-194 | the three 404s change nothing; no pending reminder gives the "nothing to send" message; otherwise one result per reminder and the result loop's table; no row changes outside its reminder columns; paid splits and other orders' splits never change |
| SplitsRouter.SplitStore.CreateBulkSplits | backend/routers/splits.py:197-252 | 404 changes nothing; otherwise the order's old splits are gone even on the 400 "No valid assignments provided"; a valid request appends exactly `CreatedSplits` with fresh ids |
| ItemAssignment.Members | frontend/app/components/ItemAssignment.tsx:84 | `MembersMeaning`: an item with no entry has nobody on it; otherwise exactly its set's members |
| ItemAssignment.MembersMeaning | frontend/app/components/ItemAssignment.tsx:84 | a missing entry reads as the empty set; a user is a member exactly when the item's set holds them |
| ItemAssignment.Remove | frontend/app/components/ItemAssignment.tsx:53 | deleting never lengthens the set |
| ItemAssignment.RemoveMeaning | frontend/app/components/ItemAssignment.tsx:53 | `delete` takes out u and nothing else, keeps a set a set, and ignores an absent u |
| ItemAssignment.ToggledMeaning | frontend/app/components/ItemAssignment.tsx:49-59 | toggling flips u's membership and nobody else's, and keeps a set a set |
| ItemAssignment.Toggled | frontend/app/components/ItemAssignment.tsx:49-59 | `u` leaves if present and joins at the end if not; its meaning is stated by `ToggledMeaning` and `ToggleTwice` |
| ItemAssignment.ToggleTwice | frontend/app/components/ItemAssignment.tsx:49-59 | toggling twice gives the same members; when u was absent, the same order as well |
| ItemAssignment.FillAll | frontend/app/components/ItemAssignment.tsx:40-43 | every order item gets the given set, and there are no other keys |
| ItemAssignment.Zeros | frontend/app/components/ItemAssignment.tsx:79-82 | every user starts at 0, so the total is 0 |
| ItemAssignment.ZerosKeys | frontend/app/components/ItemAssignment.tsx:80-82 | every user has an entry before any item is credited |
| ItemAssignment.AddEach | frontend/app/components/ItemAssignment.tsx:87-89 | crediting keeps the ledger valid and keeps every existing entry; `AddEachGet` and `AddEachTotal` give the amounts |
| ItemAssignment.CreditItem | frontend/app/components/ItemAssignment.tsx:83-90 | crediting one item keeps the ledger valid and keeps every existing entry |
| ItemAssignment.PreviewOf | frontend/app/components/ItemAssignment.tsx:79-90 | the preview ledger stays valid; `PreviewKeys`, `PreviewTotal` and `PreviewOfUser` say what it holds |
| ItemAssignment.PreviewKeys | frontend/app/components/ItemAssignment.tsx:79-90 | every user has an amount to show, even one who shares no item |
| ItemAssignment.StartAtZero | frontend/app/components/ItemAssignment.tsx:80-82 | the first loop builds exactly `Zeros`: every user at 0 |
| ItemAssignment.Preview | frontend/app/components/ItemAssignment.tsx:79-90 | the preview loop computes exactly `PreviewOf` |
| ItemAssignment.CreditMembers | frontend/app/components/ItemAssignment.tsx:87-89 | the inner loop credits every member once |
| ItemAssignment.AddEachTotal | frontend/app/components/ItemAssignment.tsx:87-89 | crediting each member once adds one part per member to the total |
| ItemAssignment.AddEachGet | frontend/app/components/ItemAssignment.tsx:87-89 | with a proper set, each member's subtotal grows by one part and nobody else's changes |
| ItemAssignment.CopiesAreProduct | frontend/app/components/ItemAssignment.tsx:86 | n equal parts add up to n times the part |
| ItemAssignment.EvenPartsAddUp | frontend/app/components/ItemAssignment.tsx:86-89 | n equal parts of a line total add back up to it |
| ItemAssignment.PreviewTotal | frontend/app/components/ItemAssignment.tsx:79-94 | `totalSubtotal` is the sum of the line totals of the items somebody shares |
| ItemAssignment.PreviewOfUser | frontend/app/components/ItemAssignment.tsx:79-90 | each user's preview subtotal is their share of each item they were given |
| ItemAssignment.PreviewAmount | frontend/app/components/ItemAssignment.tsx:176-177 | `sub + propFees` for one badge; `CrossCheck.PreviewMatchesServer` proves it equals the server's unrounded amount for that user |
| ItemAssignment.PerPersonCost | frontend/app/components/ItemAssignment.tsx:198-200 | absent exactly when nobody shares the item; otherwise the parts add back up to the line total |
| ItemAssignment.UnassignedMeaning | frontend/app/components/ItemAssignment.tsx:98-100 | the unassigned items are exactly the order items nobody shares |
| ItemAssignment.Unassigned | frontend/app/components/ItemAssignment.tsx:98-100 | never more than the order's items; `UnassignedMeaning` says exactly which items |
| ItemAssignment.Names | frontend/app/components/ItemAssignment.tsx:104 | one name per unassigned item, in order |
| ItemAssignment.UnassignedMessage | frontend/app/components/ItemAssignment.tsx:101-106 | the error starts with the fixed prefix; with one item it is the prefix and that item's name |
| ItemAssignment.Payload | frontend/app/components/ItemAssignment.tsx:113-119 | one entry per order item |
| ItemAssignment.PayloadComplete | frontend/app/components/ItemAssignment.tsx:98-119 | once validation passes, entry k is item k with its set, and that set is not empty |
| ItemAssignment.AssignmentEditor.constructor | frontend/app/components/ItemAssignment.tsx:39-47 | every order item starts with the empty set; not saving; no error |
| ItemAssignment.AssignmentEditor.Toggle | frontend/app/components/ItemAssignment.tsx:49-59 | only that item's set changes, to its toggled version; the editor stays valid |
| ItemAssignment.AssignmentEditor.EvenSplit | frontend/app/components/ItemAssignment.tsx:61-68 | every item is shared by every user, each listed once |
| ItemAssignment.AssignmentEditor.ClearAll | frontend/app/components/ItemAssignment.tsx:70-76 | every item goes back to the empty set |
| ItemAssignment.AssignmentEditor.HandleSave | frontend/app/components/ItemAssignment.tsx:96-142 | with an unassigned item: no request, and the listing error; otherwise the request is the payload, and created splits go up; a refused save shows the server's detail or "Failed to save splits"; a throw shows its message; saving ends false |
| CrossCheck.ItemMapFindsItems | backend/routers/splits.py:209 | with distinct item ids, `item_map` finds every item under its own id |
| CrossCheck.ServerLineSum | backend/routers/splits.py:215-225 | the server's valid line totals for the screen's request equal the preview's `totalSubtotal` |
| CrossCheck.AmountForEqualShares | backend/routers/splits.py:219-223 | equal credits to a set of users charge each member one part and nobody else anything |
| CrossCheck.ServerCredits | backend/routers/splits.py:215-225 | the server credits each user the same sum of parts the preview adds up for them |
| CrossCheck.PreviewMatchesServer | frontend/app/components/ItemAssignment.tsx:175-177 | the amount under a badge equals the server's unrounded amount for that user: same subtotal, same total, same fee share |
| CrossCheck.NoDupsCardinality | frontend/app/components/SplitReview.tsx:50 | a list without repeats has as many distinct members as entries |
| CrossCheck.CountByUsers | frontend/app/components/SplitReview.tsx:50 | when no two splits have the same user, each member of a group has a split, and a split lists the item exactly when its user is in the group, the count is the size of the group |
| CrossCheck.ReviewCountMatchesServer | frontend/app/components/SplitReview.tsx:47-51 | for the splits `create_bulk_splits` creates, the review screen counts each validly assigned item once per user it was assigned to. Premises: no user listed twice, assignments of one item agree, and every credited user exists. A missing user is skipped by the server (lines 235-237 of splits.py), which would lower the count and raise the share shown |
| CrossCheck.ReviewShareMatchesServer | frontend/app/components/SplitReview.tsx:277-278 | under the same premises, the share the review screen shows for an item equals the server's `per_user_cost` (splits.py:219) |
| CrossCheck.PayloadIsOnePerItem | frontend/app/components/ItemAssignment.tsx:113-119 | the assignment screen's request meets those premises: no user is listed twice in an entry, and two entries for the same item are equal |
| SplitReview.ItemIndex | frontend/app/components/SplitReview.tsx:45 | every order item is found under its id, and every entry is an order item |
| SplitReview.CountContaining | frontend/app/components/SplitReview.tsx:50 | never more than the number of splits; `CountContainingIsHolders` shows it counts the splits that list the item, and `CrossCheck.ReviewCountMatchesServer` that, for created splits, it is the number of users the item was assigned to |
| SplitReview.CountContainingIsHolders | frontend/app/components/SplitReview.tsx:50 | the count is the number of splits that list the item |
| SplitReview.ItemShareCounts | frontend/app/components/SplitReview.tsx:47-51 | one count per order item, each the number of splits that list it |
| SplitReview.ShareCount | frontend/app/components/SplitReview.tsx:277 | at least 1: the stored count, or 1 for a missing or zero count |
| SplitReview.DisplayedShare | frontend/app/components/SplitReview.tsx:277-278 | the shares of an item add back up to its line total |
| SplitReview.AssignedItems | frontend/app/components/SplitReview.tsx:240-242 | exactly the items of the split's ids that the order knows |
| SplitReview.AssignedItemsAllKnown | frontend/app/components/SplitReview.tsx:240-242 | when the order knows every id, nothing is dropped and the id order is kept |
| SplitReview.SumShares | frontend/app/components/SplitReview.tsx:295-302 | the sum of the displayed item shares; `SumSharesAppend` proves it adds over concatenation, so the fold's order does not matter, and `FeeResidual` is bounded by it |
| SplitReview.SumSharesAppend | frontend/app/components/SplitReview.tsx:295-302 | the shares of two runs of items sum to the sum of their sums |
| SplitReview.FeeResidual | frontend/app/components/SplitReview.tsx:295-302 | never negative; either 0 or the amount owed less the item shares |
| SplitReview.FilterMembers | frontend/app/components/SplitReview.tsx:112-113 | the outstanding list holds the unpaid splits, the settled list the paid ones |
| SplitReview.Unpaid | frontend/app/components/SplitReview.tsx:112 | never longer than the splits; `PaidUnpaidPartition` and `UnpaidKeepsOrder` say it holds exactly the unpaid splits, in order |
| SplitReview.Paid | frontend/app/components/SplitReview.tsx:113 | never longer than the splits; `PaidUnpaidPartition` and `PaidKeepsOrder` say it holds exactly the paid splits, in order |
| SplitReview.PaidUnpaidPartition | frontend/app/components/SplitReview.tsx:112-113 | the two lists together hold every split exactly as often as the state does |
| SplitReview.UnpaidKeepsOrder | frontend/app/components/SplitReview.tsx:112 | the outstanding list keeps the state's order |
| SplitReview.PaidKeepsOrder | frontend/app/components/SplitReview.tsx:113 | the settled list keeps the state's order |
| SplitReview.BannersMeaning | frontend/app/components/SplitReview.tsx:189-397 | send-all shows exactly when some split is unpaid; "All settled" exactly when there are splits and all are paid; with splits, exactly one of the two shows |
| SplitReview.ShowSendAll | frontend/app/components/SplitReview.tsx:189 | some split is unpaid, as `BannersMeaning` proves |
| SplitReview.AllSettled | frontend/app/components/SplitReview.tsx:397 | there are splits and every one is paid, as `BannersMeaning` proves |
| SplitReview.ReplaceById | frontend/app/components/SplitReview.tsx:63 | the list keeps its length |
| SplitReview.ReplaceByIdOne | frontend/app/components/SplitReview.tsx:63 | with distinct ids, exactly the split with that id is replaced |
| SplitReview.ReplaceByIdAbsent | frontend/app/components/SplitReview.tsx:63 | an id not on screen changes nothing |
| SplitReview.ReplaceByIdKeepsIds | frontend/app/components/SplitReview.tsx:63 | the ids on screen, and their distinctness, are kept |
| SplitReview.SplitReviewPanel.constructor | frontend/app/components/SplitReview.tsx:34-37 | the splits prop; nothing sending; no toast |
| SplitReview.SplitReviewPanel.TogglePaid | frontend/app/components/SplitReview.tsx:55-67 | asks for the opposite status; an answer replaces the split with its id; a failure shows "Failed to update payment status" |
| SplitReview.SplitReviewPanel.SendReminder | frontend/app/components/SplitReview.tsx:69-86 | the answer's split replaces the one with its id, with "Reminder sent!"; a failure shows "Failed to send reminder"; the busy marker clears |
| SplitReview.SplitReviewPanel.SendAllReminders | frontend/app/components/SplitReview.tsx:88-110 | only a successful refresh replaces the list; a refresh that answered an error still reports success; the busy flag clears |
| SplitReview.SplitReviewPanel.ToastExpired | frontend/app/components/SplitReview.tsx:39-42 | the timer clears the toast and nothing else |
| ParsedReceipt.WithEdit | frontend/app/components/ParsedReceipt.tsx:41-45 | one field of the line takes the new value; the other two are kept |
| ParsedReceipt.NumberOr | frontend/app/components/ParsedReceipt.tsx:187 | `parseFloat(v) \|\| 0` on the price input (the total and fee inputs at lines 142 and 238 use it too): a number that did not parse, or parsed as 0, gives the fallback; any other number is kept |
| ParsedReceipt.IntOr | frontend/app/components/ParsedReceipt.tsx:180 | `parseInt(v) \|\| 1`: a non-zero integer read is kept; `NaN` or 0 gives the fallback, so a non-zero fallback never yields 0 |
| ParsedReceipt.WithoutIndexMeaning | frontend/app/components/ParsedReceipt.tsx:54-59 | an index in range removes exactly that line; an index out of range removes nothing |
| ParsedReceipt.WithoutIndex | frontend/app/components/ParsedReceipt.tsx:54-59 | never longer; `WithoutIndexMeaning` says which line goes |
| ParsedReceipt.AddThenRemove | frontend/app/components/ParsedReceipt.tsx:47-59 | removing the line just added gives back the lines before it |
| ParsedReceipt.WithFee | frontend/app/components/ParsedReceipt.tsx:221-238 | only the edited amount changes |
| ParsedReceipt.ReceiptEditor.DisplayData | frontend/app/components/ParsedReceipt.tsx:71 | in a valid editor, what is shown is the working copy |
| ParsedReceipt.ReceiptEditor.constructor | frontend/app/components/ParsedReceipt.tsx:25-29 | not editing; the working copy is the parsed data; no payer |
| ParsedReceipt.ReceiptEditor.StartEditing | frontend/app/components/ParsedReceipt.tsx:87 | enters edit mode; the data is unchanged |
| ParsedReceipt.ReceiptEditor.HandleSaveEdits | frontend/app/components/ParsedReceipt.tsx:31-34 | the working copy goes up and becomes the saved data; edit mode ends |
| ParsedReceipt.ReceiptEditor.HandleCancelEdits | frontend/app/components/ParsedReceipt.tsx:36-39 | the working copy is reset to the saved data; edit mode ends |
| ParsedReceipt.ReceiptEditor.UpdateItem | frontend/app/components/ParsedReceipt.tsx:41-45 | only line index changes, in one field |
| ParsedReceipt.ReceiptEditor.EditQuantity | frontend/app/components/ParsedReceipt.tsx:180 | only line index's quantity changes, to `IntOr(parsed, 1)`, which is never 0 |
| ParsedReceipt.ReceiptEditor.AddItem | frontend/app/components/ParsedReceipt.tsx:47-52 | a blank line (no name, quantity 1, price 0) is appended |
| ParsedReceipt.ReceiptEditor.RemoveItem | frontend/app/components/ParsedReceipt.tsx:54-59 | the line at that index goes, if there is one |
| ParsedReceipt.ReceiptEditor.EditRestaurant | frontend/app/components/ParsedReceipt.tsx:127 | only the restaurant name changes |
| ParsedReceipt.ReceiptEditor.EditTotal | frontend/app/components/ParsedReceipt.tsx:142 | only the total changes, to the parsed number or 0 |
| ParsedReceipt.ReceiptEditor.EditFee | frontend/app/components/ParsedReceipt.tsx:221-238 | only the chosen amount changes, to the parsed number or 0 |
| ParsedReceipt.ReceiptEditor.SelectPayer | frontend/app/components/ParsedReceipt.tsx:277-280 | the payer is chosen and the error is cleared |
| ParsedReceipt.ReceiptEditor.HandleSaveOrder | frontend/app/components/ParsedReceipt.tsx:61-69 | nothing is saved exactly when no payer is picked (id 0 counts as none), and then the error shows; otherwise the data on screen, unsaved edits included, goes up with the payer |
| Wizard.StatusOf | frontend/app/page.tsx:27-34 | a step is done exactly when it is before the current one, and current exactly when it is the current one |
| Wizard.ConnectorGreen | frontend/app/page.tsx:57 | a connector is green exactly when the step before it is done |
| Wizard.Indicator | frontend/app/page.tsx:19-65 | one status per step, in order |
| Wizard.IndicatorShape | frontend/app/page.tsx:19-65 | for each of the four steps: exactly one current step, at its position; the steps before it done; the ones after it ahead |
| Wizard.OrNull | frontend/app/page.tsx:113-114 | the empty string is sent as null; any other string as itself |
| Wizard.BuildOrderPayload | frontend/app/page.tsx:104-120 | the receipt's fields and the payer are sent as they are; a missing discount is sent as 0; empty image and OCR text are sent as null |
| Wizard.PayloadKeepsFees | frontend/app/page.tsx:107-111 | sending a missing discount as 0 changes nothing downstream: the server's fee formula (splits.py:231) gives the same fees for the request as for the parsed receipt |
| Wizard.Home.Shown | frontend/app/page.tsx:171-205 | in a valid state exactly one screen shows, the one for the current step |
| Wizard.Home.constructor | frontend/app/page.tsx:68-81 | step 1 with everything empty |
| Wizard.Home.LoadUsers | frontend/app/page.tsx:83-88 | a fetched list replaces the users; a failed fetch changes nothing |
| Wizard.Home.HandleUploadComplete | frontend/app/page.tsx:90-99 | keeps the parsed data, text and image, and moves to step 2 |
| Wizard.Home.OnEdit | frontend/app/page.tsx:183 | saved edits replace the parsed data |
| Wizard.Home.HandleSaveOrder | frontend/app/page.tsx:101-141 | sends the built payload; only a stored order moves to step 3; an error shows the server's detail or "Failed to save order"; a throw shows its message or that text; saving ends false |
| Wizard.Home.HandleSaveSplits | frontend/app/page.tsx:143-146 | keeps the splits and moves to step 4 |
| Wizard.Home.HandleDone | frontend/app/page.tsx:148-155 | back to step 1 with everything cleared except the users |
| Badges.UserColor | frontend/app/components/ItemAssignment.tsx:13-26 | always a palette colour |
| Badges.UserColorCycles | frontend/app/components/ItemAssignment.tsx:24-26 | colours repeat every 8 users, and the first 8 users get 8 different colours |
| Badges.Words | frontend/app/components/ItemAssignment.tsx:30 | `split(" ")` gives at least one piece and no piece holds a space; the last piece is empty exactly when the name is empty or ends in a space |
| Badges.JoinWords | frontend/app/components/ItemAssignment.tsx:30 | joining the pieces with spaces gives back the name |
| Badges.FirstLetters | frontend/app/components/ItemAssignment.tsx:31-32 | at most one letter per word; `FirstLettersAreStarts` proves they are the first letters of the non-empty words |
| Badges.FirstLettersAreStarts | frontend/app/components/ItemAssignment.tsx:28-35 | the first letters of the pieces are exactly the letters at the word starts |
| Badges.Upper | frontend/app/components/ItemAssignment.tsx:33 | a-z becomes A-Z; every other character is kept |
| Badges.UpperAll | frontend/app/components/ItemAssignment.tsx:33 | same length, every character upper-cased by `Upper` |
| Badges.Take2 | frontend/app/components/ItemAssignment.tsx:34 | the first two characters, or all of a shorter string |
| Badges.Initials | frontend/app/components/ItemAssignment.tsx:28-35 | at most two characters |
| Badges.InitialsMeaning | frontend/app/components/ItemAssignment.tsx:28-35 | the initials are the upper-cased letters at the first (at most two) word starts; there are two exactly when the name has two word starts |
| LlmService.TrimStart | backend/services/llm_service.py:63 | the suffix left after the leading whitespace, starting with a non-space |
| LlmService.IsSpace | backend/services/llm_service.py:63 | the characters Python's `str.strip` removes; `StripWraps` proves `strip` removes exactly those around a trimmed text |
| LlmService.TrimEnd | backend/services/llm_service.py:70 | the prefix left before the trailing whitespace, ending with a non-space |
| LlmService.Strip | backend/services/llm_service.py:63 | the result is trimmed and never longer |
| LlmService.StartsWith | backend/services/llm_service.py:64-67 | `startswith`: `DropPrefix` proves that when it holds the text is the prefix followed by what remains |
| LlmService.EndsWith | backend/services/llm_service.py:68 | `endswith`: `DropSuffix` proves that when it holds the text is what remains followed by the suffix |
| LlmService.DropPrefix | backend/services/llm_service.py:64-67 | a present prefix is removed; otherwise nothing changes |
| LlmService.DropSuffix | backend/services/llm_service.py:68-69 | a present suffix is removed; otherwise nothing changes |
| LlmService.StripFences | backend/services/llm_service.py:63-70 | the cleaned reply is trimmed and never longer |
| LlmService.Unfence | backend/services/llm_service.py:64-69 | never longer; `UnfenceJson`, `UnfencePlain` and `OneTrailingFenceRemoved` say which fences go |
| LlmService.StripWraps | backend/services/llm_service.py:63 | `strip` removes exactly the whitespace around a trimmed text |
| LlmService.StripOfTrimmed | backend/services/llm_service.py:63 | a trimmed text is left as it is |
| LlmService.StripIdempotent | backend/services/llm_service.py:63-70 | stripping twice is stripping once |
| LlmService.UnfencedUnchanged | backend/services/llm_service.py:63-70 | a reply without fences only loses its surrounding whitespace |
| LlmService.UnfenceJson | backend/services/llm_service.py:64-69 | "```json" + text + "```" loses both fences |
| LlmService.UnfencePlain | backend/services/llm_service.py:64-69 | "```" + text + "```" loses both fences |
| LlmService.JsonFenceRemoved | backend/services/llm_service.py:63-70 | a body fenced as json, with any whitespace inside and outside the fences, comes out as the body |
| LlmService.PlainFenceRemoved | backend/services/llm_service.py:63-70 | a body in plain fences, with whitespace after the opening fence, comes out as the body |
| LlmService.LeadingChecksInSequence | backend/services/llm_service.py:64-67 | both leading checks run: "```json```" + body loses both fences |
| LlmService.OneTrailingFenceRemoved | backend/services/llm_service.py:68-69 | at most one trailing fence is removed |

## Left out

- The network, the database session (`commit`, `refresh`), rendering (JSX, styles, icons), `alert` and the toast's timer: a `fetch` outcome is an argument of its handler, and the timer is the method `ToastExpired`.
- The Twilio client and message text (`send_payment_reminder`): the gateway is the parameter `send`; only its status, message id and echoed recipient are modelled.
- `datetime.utcnow()` is the parameter `now`, one clock reading per request: in `SplitsRouter.SplitStore.SendAllReminders` every marked row gets the same `now`, whereas the source reads the clock once per "sent" result (backend/routers/splits.py:186).
- Floating point: money is `real`. Python's `round(·, 2)` is the parameter `roundCents`, so the model makes no claim about rounding error. Conservation is proved for the unrounded amounts only.
- The ids a database hands out: the model hands out increasing integers (`nextSplitId`). A split's `item_ids` is a sequence, not a nullable database array; a NULL `item_ids`, which the router reads as `[]` (backend/routers/splits.py:79, 148), is not modelled.
- `create_bulk_splits` commits the delete before validating. The model keeps that: on the 400 the old splits are gone.
- Badges.Upper: only a-z is upper-cased; JavaScript's full Unicode `toUpperCase` is not modelled. Strings are sequences of characters, not UTF-16 code units.
- ParsedReceipt.ReceiptEditor.UpdateItem requires an index in range, because the inputs that call it exist one per displayed line. The editing methods require edit mode, because their inputs are only rendered in it.
- The error `detail` of a failed response is modelled as an optional string; a non-string detail is not modelled.
- JavaScript objects with numeric keys iterate in ascending key order; the model keeps the users' order instead. Badges are drawn by `users.map`, so their order does not depend on it. The only reader of `userSubtotals`'s key order is `Object.values(userSubtotals).reduce` (frontend/app/components/ItemAssignment.tsx:94), where it changes only the order of the floating-point additions, which makes no difference with `real`.
- The `userMap` lookups used for rendering names and colours on the last screen are not modelled; the colour rule itself is `Badges.UserColor`.
- The "Sent N reminders" message is `SentCount(N)` rather than its text.
- The split routes `create_split` (backend/routers/splits.py:13-31) and `delete_split` (255-264) are not modelled. `create_split` can give one user two unpaid splits on an order; `SplitsRouter.TargetsLastWins` states what send-all then does with them (only the later split is marked).
- `get_order_splits` (backend/routers/splits.py:34-38) is modelled only by its filter, `SplitsRouter.SplitsOf`; the HTTP response is not.
- The raw-text toggle `showOcr`, the upload screen, the OCR and storage services, the users and orders pages, and the order and user routes are outside this model.
- `send_bulk_reminders` calls the gateway once per reminder, in order. Concurrency and partial failure of that loop are not modelled.
- The JSON decoding of the cleaned reply (`json.loads`) and the language-model request itself are not modelled; only the fence and whitespace clean-up is.
