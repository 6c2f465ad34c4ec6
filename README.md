# Hospital back-office rules, modelled in Dafny

This project models the rule systems underneath a hospital back-office
built on Express and Sequelize. The request handling and the database
queries are replaced by in-memory state: maps keyed by primary key, and
sequences in creation order. The current instant and the current day
are parameters. The parts modelled are:

- **Billing.** The bill's `beforeSave` hook recomputes the subtotal,
  discount, tax, total, outstanding balance and payment status.
  `processPayment` checks a payment against the outstanding balance,
  records it, and writes paid, outstanding and status back to the bill.
  That write runs the hook again, so the hook's rule, not the
  controller's, decides what is stored.
- **Inventory.** `updateStock` applies a typed movement with an
  oversell check and a clamp at zero, and appends one stock transaction.
  The low-stock and expiry alert views are modelled too, along with the
  inventory value.
- **Pharmacy.**
  - `fulfillPrescription` checks and decrements the lines one by one.
    A refusal part-way does not roll back the earlier lines.
  - The three alert lists.
  - The drug's `afterUpdate` alert hook.
- **Prescriptions.** The pairwise drug-interaction scan. What it finds
  is reported and never blocks the prescription.
- **Appointments.** The doctor's 18-slot day grid and the
  booking-conflict check.
- **Lab reports.** The normal-range table, with its gender-specific
  entries and its fallbacks.
- **Staff.**
  - The attendance clock-in/clock-out state machine.
  - The shift-conflict check.
  - The shift hours and pay hook.
  - The attendance rate.
- **Emergency.**
  - The triage colour and priority maps.
  - `updateCaseStatus`, which stamps the treatment start and wait time
    only once.
  - The dashboard's average wait.
- **IDs.** The sequence-ID pattern that every controller repeats: a
  prefix, an optional `YYYYMMDD`, then the last issued number plus one,
  zero-padded. It is modelled once, with the prefix, date scope, width
  and suffix extraction as parameters.

Each source file has one Dafny module. `Common` holds `Option`,
JavaScript's `||` on optional values, and lemmas about `Filter` and
sums. Each piece of state is a class whose fields the methods update:

- a `Bill`, and the `BillingDesk` that holds the bills and payments;
- the `InventoryStore`;
- the `PharmacyDesk`;
- the `AttendanceBook`;
- a `Shift`;
- the `EmergencyDesk`.

Each state-changing method is specified by a pure function of the old
state, such as `Hook`, `Dispense`, `Clock` or `UpdateStatus`. The
lemmas are stated about those functions.

Units:

- Money is modelled as exact `real`.
- Times of day are minutes (appointments) or seconds (shifts and
  clock times).
- Instants are milliseconds.
- Strings are `seq<char>`.

Where the system's design description and the code disagree, the
model follows the code. The differences:

- The description says the bill's computed amounts clamp to zero. The
  hook stores `total - paid` unclamped, so an overpaid bill has a
  negative balance (`Billing.OverpaidIsNegative`).
- The description uses the 0.01 tolerance as the status rule. Only the
  controller uses it. What is stored follows the hook's `paid >= total`
  rule (`BillingController.ResponseDisagreesWithStored`).
- The description says every prescription line is validated before any
  decrement, with compensation on failure. The code decrements inside
  the validation loop and never compensates
  (`Pharmacy.NoRollback`).
- The description caps `patientPayable` at zero. The code does not
  (`Pharmacy.FulfillmentFor`).
- The description calls the stock-decrementing type `dispense`. The
  code accepts `sale`.
- The description says stock equals the signed sum of its
  transactions. Because of the clamp at zero and the unsigned
  transaction quantity, it does not always (`Inventory.MovementBounds`,
  `Inventory.TransactionFor`).

## Model

| member | source | states |
|---|---|---|
| Common.OrNumber | src/models/Billing.js:117 | `x \|\| d` on an optional number: a present non-zero value is kept; absent or zero gives the fallback |
| Billing.Subtotal | src/models/Billing.js:115-119 | computes the sum of `price * (quantity \|\| 1)` over the lines; `SubtotalAppend` and `SubtotalConcat` state it |
| Billing.StatusFor | src/models/Billing.js:138-144 | computes the hook's payment status from paid and total; `HookStatus` states it |
| Billing.Hook | src/models/Billing.js:113-145 | computes the fields `beforeSave` stores; `HookDerivation`, `HookStatus` and `HookIdempotent` state them |
| Billing.SubtotalAppend | src/models/Billing.js:115-119 | adding a service line adds `price * quantity` to the subtotal; a missing or zero quantity counts as 1 |
| Billing.SubtotalConcat | src/models/Billing.js:115-119 | the subtotal of two runs of lines is the sum of their subtotals |
| Billing.HookDerivation | src/models/Billing.js:113-135 | subtotal from the lines (kept when `services` is not an array); a positive percentage overrides the supplied discount; tax on the discounted amount; total = subtotal - discount + tax; outstanding = total - paid, unclamped; the inputs are untouched |
| Billing.HookStatus | src/models/Billing.js:138-144 | paid iff paid >= total; partial iff 0 < paid < total; unpaid otherwise; never refunded |
| Billing.HookIdempotent | src/models/Billing.js:113-145 | saving a saved bill again changes no field |
| Billing.OverpaidIsNegative | src/models/Billing.js:135 | paid above total leaves a negative outstanding balance and status paid |
| Billing.HookExample | src/models/Billing.js:55-58 | one line of price 100 and quantity 2, a 10% discount and the default 18% tax give subtotal 200, discount 20, tax 32.4 and total 212.4, all outstanding and unpaid |
| Billing.Bill.constructor | src/models/Billing.js:113-145 | a created bill holds the hook's fields for its inputs |
| Billing.Bill.Recompute | src/models/Billing.js:113-145 | the field-by-field hook leaves exactly `Hook(old fields)` |
| Billing.Bill.UpdatePayment | src/controllers/billingController.js:292-296 | `bill.update` assigns the three payment fields, then runs the hook |
| BillingController.PaymentIdsOf | src/controllers/billingController.js:30-42 | the payment IDs in creation order, one per payment |
| BillingController.ControllerStatus | src/controllers/billingController.js:285-290 | computes the controller's status with the 0.01 tolerance; `ControllerAgreesWithHook` relates it to the hook's |
| BillingController.AfterPayment | src/controllers/billingController.js:282-296 | computes the bill after `bill.update` with the new paid amount, the clamped balance and the controller's status; `PersistedAfterPayment` states what is stored |
| BillingController.HookIgnoresPaymentFields | src/models/Billing.js:113-132 | the total a save computes does not depend on the paid, outstanding or status fields written before it |
| BillingController.PersistedAfterPayment | src/controllers/billingController.js:282-296 | after an accepted payment the stored paid amount grows by exactly `amount`; the total is unchanged; the stored balance is `total - newPaid` (the clamp is undone by the hook); the stored status is the hook's; the bill stays consistent |
| BillingController.ControllerAgreesWithHook | src/controllers/billingController.js:285-290 | outside the 0.01 tolerance band the controller's status equals the hook's |
| BillingController.ResponseDisagreesWithStored | src/controllers/billingController.js:285-296 | paying 99.995 of a 100.00 bill is answered `paid` but stored `partial` |
| BillingController.NoOverpayment | src/controllers/billingController.js:258-283 | on a consistent bill, an accepted payment never lifts paid above total, and the stored balance stays non-negative |
| BillingController.BillingDesk.CreateBill | src/controllers/billingController.js:186-195 | the new bill gets the day's next bill ID from the generator as written (`slice(-4)`) and the hook's fields, and is added under its key |
| BillingController.BillingDesk.ProcessPayment | src/controllers/billingController.js:235-318 | an unknown bill gives 404 and an amount over the balance gives 400, both changing nothing; otherwise one `success` payment with the next payment ID (generator as written), the bill's key and patient is appended; the reply carries `max(0, total - newPaid)` and the controller's status; the bill becomes `AfterPayment`; no other bill changes |
| BillingController.BillingDesk.RecordPayment | src/controllers/billingController.js:265-296 | the accepted branch: one `success` payment with the next payment ID is appended, the bill becomes `AfterPayment`, and every bill stays consistent |
| BillingController.ApplyPayment | src/controllers/billingController.js:282-296 | the controller arithmetic, including the 0.01 tolerance, then `bill.update` |
| Ids.NatToString | src/controllers/billingController.js:26 | `String(n)` is a non-empty string of digits |
| Ids.PadStart | src/controllers/billingController.js:26 | `padStart` gives length `max(len, width)` and never truncates |
| Ids.LastIssued | src/controllers/billingController.js:17-22 | the newest existing ID in scope: an element of the list with no element in scope after it; if filtered, it starts with the scope; none only when no existing ID is in scope |
| Ids.NextId | src/controllers/billingController.js:15-27 | the generated ID starts with the scope and has at least `width` characters after it |
| Ids.Fixed | src/controllers/billingController.js:24-26 | the corrected scheme differs from the original only in reading the number from everything after the scope |
| Ids.ItemPrefix | src/controllers/inventoryController.js:8-17 | every category maps to a three-letter prefix, `ITM` by default |
| Ids.DrugPrefix | src/controllers/pharmacyController.js:17-28 | every drug category maps to a three-letter prefix, `DRG` by default |
| Ids.ParseDigits | src/controllers/billingController.js:25 | `parseInt` of a digit string is its value |
| Ids.ParseInt | src/controllers/billingController.js:25 | computes `parseInt`: leading blanks skipped, an optional sign, the longest digit run, none when there is no digit; `ParseDigits` states its value |
| Ids.PaddedValue | src/controllers/billingController.js:26 | zero padding does not change the number the digits denote |
| Ids.FirstInScope | src/controllers/billingController.js:24-26 | with no earlier ID in the day's scope the sequence starts at 1 (`…0001`) |
| Ids.IssuedIsLast | src/controllers/billingController.js:17-22 | the ID just issued is the one the next lookup finds |
| Ids.NextAfterLastChars | src/controllers/billingController.js:24-26 | as written, `slice(-k)` reads back only the low `k` digits, so after number `n` comes `(n mod 10^k) + 1` |
| Ids.RoundTripBelowBound | src/controllers/billingController.js:24-26 | below 10^k the `slice(-k)` round trip holds and the sequence continues |
| Ids.DatedContinues | src/controllers/billingController.js:15-27 | every dated generator (`<prefix><yyyymmdd><nnnn>`, read back with `slice(-4)`) continues its day's sequence up to number 9999 |
| Ids.DoctorIdsContinue | src/controllers/doctorController.js:6-13 | `DOC` codes continue their sequence for every number |
| Ids.PatientIdsContinue | src/controllers/patientController.js:6-13 | `PAT` codes continue their sequence for every number |
| Ids.NextAfterDropScope | src/controllers/inventoryController.js:23-24 | `slice(k)`, with `k` the length of the scope, continues every sequence |
| Ids.NextAfterRemovePrefix | src/controllers/doctorController.js:11-12 | `replace(prefix, '')` on an undated ID continues every sequence |
| Ids.FormatInjective | src/controllers/billingController.js:26 | two IDs of one scheme and day are equal only if their numbers are |
| Ids.FixedContinues | src/controllers/billingController.js:24-26 | the corrected generator continues every sequence, past 9999 included |
| Ids.FixedAgreesBelowBound | src/controllers/billingController.js:24-26 | below 10^k the corrected generator issues exactly what the original does |
| Ids.IssueMany | src/controllers/billingController.js:15-27 | issuing `count` IDs in a row appends `count` IDs |
| Ids.FixedIssuesInOrder | src/controllers/billingController.js:15-27 | from an empty scope the corrected generator issues `…1, …2, …, …count` |
| Ids.FixedNeverRepeats | src/controllers/billingController.js:15-27 | from an empty day scope, the IDs the corrected generator issues in a row are pairwise distinct |
| Ids.RolloverRepeatsFirst | src/controllers/billingController.js:24-26 | as written, after number 10^k the next ID repeats the scope's first ID |
| Ids.BillRollover | src/controllers/billingController.js:15-27 | after `BILL<day>10000` the generator answers `BILL<day>0001` again |
| Inventory.ParseTxType | src/controllers/inventoryController.js:165-170 | a name is accepted iff it is one of the six listed; an accepted name is the name of its type, never `transfer` |
| Inventory.TypeNamesParse | src/controllers/inventoryController.js:165-170 | every type but `transfer` is accepted under its own name; `transfer` is refused |
| Inventory.ClampAtZero | src/controllers/inventoryController.js:216 | `Math.max(0, n)`: n when non-negative, else 0 |
| Inventory.NewStockLevel | src/controllers/inventoryController.js:182-195 | computes the unclamped level after a movement, none for a refused removal; `AddsIncrease`, `RemovalRule` and `MovementBounds` state it |
| Inventory.AddsIncrease | src/controllers/inventoryController.js:183-184 | purchase, return or adjustment with a positive quantity adds it |
| Inventory.RemovalRule | src/controllers/inventoryController.js:185-192 | sale, damage or expiry is refused iff it exceeds the stock, and otherwise subtracts, never below zero |
| Inventory.MovementBounds | src/controllers/inventoryController.js:182-195 | only removals are refused; an accepted movement changes stock by at most `\|q\|`; a zero quantity changes nothing |
| Inventory.LowStockItems | src/controllers/inventoryController.js:253-270 | computes the active items with stock at or below the reorder level; `LowStockPartition` states how they split |
| Inventory.LowStockPartition | src/controllers/inventoryController.js:253-288 | with no negative stock, out-of-stock (= 0) and low-stock (> 0) partition the alert list and their counts add to `totalAlerts` |
| Inventory.DaysParam | src/controllers/inventoryController.js:305 | `parseInt(days) \|\| 30` is never 0: absent, unparsable or zero means 30 |
| Inventory.ExpiringItems | src/controllers/inventoryController.js:303-320 | computes the active, in-stock items expiring within `days`; `ExpiryBucketsPartition` states how they split |
| Inventory.ExpiryBucketsPartition | src/controllers/inventoryController.js:309-362 | every fetched item is active and in stock, expires within `days`, and lies in exactly one of expired / within 7 days / beyond 7 days; the three counts add to `totalItems` |
| Inventory.InventoryValue | src/controllers/inventoryController.js:412-419 | computes the sum of stock times unit cost over the active items; `InventoryValueAppend` and `InventoryValueNonNegative` state it |
| Inventory.InventoryValueNonNegative | src/controllers/inventoryController.js:412-419 | with non-negative stock and cost, the inventory value is non-negative |
| Inventory.InventoryValueAppend | src/controllers/inventoryController.js:412-419 | each active item adds stock times unit cost; inactive items add nothing |
| Inventory.ItemCodesContinue | src/controllers/inventoryController.js:7-25 | item codes of a category continue for every sequence number (`MED9999`, then `MED10000`) |
| Inventory.InventoryStore.UpdateStock | src/controllers/inventoryController.js:160-246 | an invalid type gives 400 and an unknown item 404, both changing nothing; otherwise the outcome and new state are `Moved`; non-negative stock is preserved |
| Inventory.InventoryStore.Move | src/controllers/inventoryController.js:181-236 | a refused removal changes nothing; otherwise one transaction of `\|q\|` at the unit cost is appended, the stock becomes the clamped level, and `LOW_STOCK` is raised iff the unclamped level <= reorder level |
| Inventory.TransactionFor | src/controllers/inventoryController.js:201-212 | the transaction quantity is `\|q\|` and its total cost is unit cost times `\|q\|` |
| Inventory.MoveStock | src/controllers/inventoryController.js:182-195 | the `newStock` branches: accepted iff the level is defined, with that level |
| Inventory.TransactionIdsOf | src/controllers/inventoryController.js:28-38 | the transaction IDs in creation order |
| Inventory.NextTransactionIdContinues | src/controllers/inventoryController.js:28-38 | the transaction generator continues the day's sequence up to number 9999 |
| DrugInventory.AlertConditions | src/models/DrugInventory.js:132-148 | reorder iff 0 < stock <= reorder level; out of stock iff stock = 0; expiry iff expiry <= now + 30 days, whatever the stock |
| DrugInventory.AfterUpdateAlerts | src/models/DrugInventory.js:132-148 | computes the alerts the hook raises, in order; `AlertConditions` states when each fires |
| DrugInventory.StockAlertsExclusive | src/models/DrugInventory.js:133-139 | the two stock alerts never fire together; at most two alerts, each kind once |
| DrugInventory.ExpiredOutOfStockRaisesBoth | src/models/DrugInventory.js:137-147 | an expired drug with no stock raises out-of-stock and expiry, in that order |
| Pharmacy.FulfillmentFor | src/controllers/pharmacyController.js:234-249 | the record is `completed` with the dispense's total; insurance defaults to 0; patient payable = total - insurance, negative when insurance exceeds the total |
| Pharmacy.FulfillmentIdsOf | src/controllers/pharmacyController.js:39-49 | the fulfilment IDs in creation order |
| Pharmacy.NextFulfillmentIdContinues | src/controllers/pharmacyController.js:39-49 | the fulfilment generator continues the day's sequence up to number 9999 |
| Pharmacy.Step | src/controllers/pharmacyController.js:203-228 | computes one line of the loop: after a refusal nothing; a missing drug or short stock refuses; otherwise the stock is decremented and the line's cost added; `StepAccepted` and `StepDecrements` state it |
| Pharmacy.Dispense | src/controllers/pharmacyController.js:200-229 | computes the whole loop as `Step` over the lines in order; the dispense lemmas below state it |
| Pharmacy.ErrorPersists | src/controllers/pharmacyController.js:203-218 | once a line is refused, the remaining lines change nothing |
| Pharmacy.NoRollback | src/controllers/pharmacyController.js:203-232 | a refusal at line k leaves the drugs as lines 0..k-1 decremented them |
| Pharmacy.DispenseKeepsCatalogue | src/controllers/pharmacyController.js:223-228 | the dispense only changes stock: same drugs, names, prices and expiry |
| Pharmacy.DispenseTotal | src/controllers/pharmacyController.js:203-220 | a dispense that goes through found every drug, and its total is the sum of price times quantity over the lines |
| Pharmacy.DispenseKeepsStockNonNegative | src/controllers/pharmacyController.js:213-228 | non-negative stock stays non-negative, refused or not |
| Pharmacy.DispenseUntouched | src/controllers/pharmacyController.js:203-229 | a drug no line names is unchanged |
| Pharmacy.DispenseDecrements | src/controllers/pharmacyController.js:213-228 | with one line per drug, a dispense that goes through leaves each listed drug at old stock minus its quantity |
| Pharmacy.RefusalNamesLine | src/controllers/pharmacyController.js:206-218 | a 404 names a line's drug ID missing from the drugs; a 400 reports an available quantity below some line's required quantity |
| Pharmacy.PharmacyDesk.FulfillPrescription | src/controllers/pharmacyController.js:180-269 | an unknown prescription gives 404 and changes nothing; otherwise the drugs become the dispense's; a refusal adds no record; success appends the `FulfillmentFor` record with the next fulfilment ID; non-negative stock is preserved |
| Pharmacy.PharmacyDesk.DispenseLines | src/controllers/pharmacyController.js:200-229 | the loop leaves exactly the state `Dispense` describes |
| Pharmacy.LowStockDrugs | src/controllers/pharmacyController.js:277-289 | computes the active drugs with stock at or below the reorder level |
| Pharmacy.ExpiringDrugs | src/controllers/pharmacyController.js:292-302 | computes the active, in-stock drugs expiring within thirty days |
| Pharmacy.OutOfStockDrugs | src/controllers/pharmacyController.js:305-310 | computes the active drugs with no stock; `AlertListsOverlap` and `AlertListsMatchHook` relate the three lists |
| Pharmacy.AlertListsOverlap | src/controllers/pharmacyController.js:277-310 | with non-negative reorder levels every out-of-stock drug is also low-stock, so it is counted in both; an expiring drug is never out of stock |
| Pharmacy.AlertListsMatchHook | src/controllers/pharmacyController.js:277-310 | for an active drug: out of stock iff the hook raises out-of-stock; expiring iff in stock and the hook raises expiry; low iff the hook raises either stock alert |
| Pharmacy.DrugCodesContinue | src/controllers/pharmacyController.js:16-36 | drug codes of a category continue for every sequence number |
| Prescriptions.Lower | src/controllers/prescriptionController.js:42-43 | `toLowerCase` on ASCII letters: same length, upper-case letters mapped down, everything else kept |
| Prescriptions.InteractionEntry | src/controllers/prescriptionController.js:34-38 | computes the interaction table's entry: warfarin, aspirin and lisinopril each list two drugs; any other name has none |
| Prescriptions.Flagged | src/controllers/prescriptionController.js:42-45 | computes the pair test: the lower-cased first name has an entry that lists the lower-cased second |
| Prescriptions.Report | src/controllers/prescriptionController.js:46-51 | a report names the two drugs as given, earlier first, with severity `moderate` |
| Prescriptions.ScanPairs | src/controllers/prescriptionController.js:40-54 | the two index loops visit every pair i < j in order and return exactly the reports of the pairs the test flags |
| Prescriptions.CheckDrugInteractions | src/controllers/prescriptionController.js:32-57 | the returned list is exactly `Interactions(meds)`, which `InteractionsExactly` characterises |
| Prescriptions.Interactions | src/controllers/prescriptionController.js:40-54 | computes the reports of all rows; `InteractionsExactly` characterises it |
| Prescriptions.RowExactly | src/controllers/prescriptionController.js:41-52 | row i reports exactly the flagged pairs (i, k) with k < hi |
| Prescriptions.RowsSound | src/controllers/prescriptionController.js:40-54 | every report of the first n rows comes from a flagged pair i < j |
| Prescriptions.RowsComplete | src/controllers/prescriptionController.js:40-54 | every flagged pair of the first n rows is reported |
| Prescriptions.InteractionsExactly | src/controllers/prescriptionController.js:40-52 | a report exists exactly for the pairs i < j whose earlier drug's entry lists the later one, naming `medications[i]` then `medications[j]`, always `moderate` |
| Prescriptions.RowsLength | src/controllers/prescriptionController.js:40-41 | the first n rows hold at most as many reports as there are pairs in them |
| Prescriptions.InteractionsBound | src/controllers/prescriptionController.js:40-41 | at most n(n-1)/2 reports; none for fewer than two medications |
| Prescriptions.TwoMedications | src/controllers/prescriptionController.js:40-52 | two medications give one report or none, by the one test |
| Prescriptions.OneDirectional | src/controllers/prescriptionController.js:34-45 | [Aspirin, Metformin] is reported; [Metformin, Aspirin] is not |
| Prescriptions.CreatePrescription | src/controllers/prescriptionController.js:241-258 | created iff the patient exists |
| Prescriptions.InteractionsNeverBlock | src/controllers/prescriptionController.js:250-312 | the prescription ID does not depend on the medications; `drugInteractions` is `null` iff the scan is empty, and is otherwise the scan's list |
| Appointments.DurationOf | src/controllers/appointmentController.js:493 | `duration \|\| 30` |
| Appointments.SlotOverlaps | src/controllers/appointmentController.js:491-498 | computes the grid's overlap test between a 30-minute slot and an appointment; `SlotFreeIffNoConflict` relates it to the booking check |
| Appointments.DoctorAvailability | src/controllers/appointmentController.js:482-506 | 18 slots at 09:00 + 30k; each is available iff no counted appointment of that doctor and day overlaps it |
| Appointments.GridTimes | src/controllers/appointmentController.js:483-489 | slot k runs from 09:00 + 30k, at most 17:30, and ends by 18:00 |
| Appointments.EmptyDayAllFree | src/controllers/appointmentController.js:470-478 | with no counted appointment, every slot is free |
| Appointments.UncountedIgnored | src/controllers/appointmentController.js:474 | a cancelled or no-show appointment changes nothing |
| Appointments.BackToBackFree | src/controllers/appointmentController.js:497 | an appointment that only touches a slot leaves it free |
| Appointments.OverlapsIffSharedMinute | src/controllers/appointmentController.js:32-33 | interval overlap iff some minute lies in both appointments |
| Appointments.ConflictsAsWritten | src/controllers/appointmentController.js:22-44 | computes the query as written: counted appointments of that doctor and day starting in `[start, end)`, `end` taken as a time of day; the lemmas below state where it differs from `Conflicts` |
| Appointments.Conflicts | src/controllers/appointmentController.js:22-44 | computes the corrected check with interval overlap; `ConflictsExactly` characterises it |
| Appointments.ConflictsExactly | src/controllers/appointmentController.js:22-44 | the corrected check reports exactly the counted appointments of that doctor and day that share a minute with the booking, other than the one excluded |
| Appointments.SelfExcluded | src/controllers/appointmentController.js:42-44 | a rescheduled appointment never conflicts with itself |
| Appointments.SlotFreeIffNoConflict | src/controllers/appointmentController.js:491-498 | a grid slot is free iff a 30-minute booking there has no conflict |
| Appointments.EarlierOverlapMissed | src/controllers/appointmentController.js:34-37 | as written, an appointment that starts earlier and runs into the booking is missed, and the overlap test catches it |
| Appointments.MidnightBookingNeverConflicts | src/controllers/appointmentController.js:24-36 | as written, a booking past midnight wraps its end and finds no conflict whatever is booked |
| Appointments.AsWrittenAgreesWhenFirst | src/controllers/appointmentController.js:34-37 | the check as written equals the overlap test on a booking that starts no later than every appointment and ends before midnight |
| Appointments.CreateAppointment | src/controllers/appointmentController.js:225-288 | booked iff the patient and doctor exist, the query as written finds no conflict for `duration \|\| 30`, and the time is not in the past; a refusal for availability carries the query's conflicts; the booking keeps that duration and gets the next appointment ID (generator as written) |
| Appointments.DoubleBookingAccepted | src/controllers/appointmentController.js:34-37 | a booking that starts inside a counted appointment of the same doctor and day is booked, although the overlap test reports that appointment |
| Appointments.RescheduleConflicts | src/controllers/appointmentController.js:351-369 | the query as written, on the supplied or current doctor, date, time and duration; no check when nothing relevant is supplied; the appointment itself is never its own conflict |
| LabReports.NotApplicableCases | src/controllers/labReportController.js:65-73 | not applicable iff the test type or both entries are missing |
| LabReports.TestRanges | src/controllers/labReportController.js:31-62 | computes the normal-range table; `TableRangesNonEmpty` and `HemoglobinByGender` state it |
| LabReports.CheckNormalRange | src/controllers/labReportController.js:65-83 | computes `checkNormalRange`; `NotApplicableCases`, `GenderKeyFirst` and `CheckedAgainstEntry` state it |
| LabReports.GenderKeyFirst | src/controllers/labReportController.js:70-73 | the `name_gender` entry wins over `name`; none iff both are missing |
| LabReports.CheckedAgainstEntry | src/controllers/labReportController.js:74-83 | normal iff min <= value <= max, and never for an unparsable value; the range text; `optimal` falls back to the range text |
| LabReports.HemoglobinByGender | src/controllers/labReportController.js:33-34 | male haemoglobin uses 13.5-17.5; female and unspecified use 12.0-15.5 |
| LabReports.TableRangesNonEmpty | src/controllers/labReportController.js:31-62 | every table entry has 0 <= min < max |
| LabReports.NextLabReportIdContinues | src/controllers/labReportController.js:16-27 | the lab report generator continues the day's sequence up to number 9999 |
| StaffSchedule.HookOnlyWritesPay | src/models/StaffSchedule.js:95-99 | the hook writes only `totalPay`, ignores any supplied value and is idempotent |
| StaffSchedule.TotalPay | src/models/StaffSchedule.js:96-98 | computes hours times hourly rate plus overtime hours times overtime rate, missing or zero values counting 0; `PayRules` states it |
| StaffSchedule.Hook | src/models/StaffSchedule.js:95-99 | computes the shift after the hook; `HookOnlyWritesPay` states it |
| StaffSchedule.PayRules | src/models/StaffSchedule.js:96-98 | no or zero rates pay 0; with no overtime, or no overtime rate, pay is hours times the hourly rate |
| StaffSchedule.PayMonotone | src/models/StaffSchedule.js:96-98 | with non-negative inputs the pay is non-negative and grows with the hours |
| StaffSchedule.PayExample | src/models/StaffSchedule.js:96-98 | 8 h at 25 plus 2 h overtime at 37.5 pay 275 |
| StaffSchedule.Shift.constructor | src/models/StaffSchedule.js:95-99 | a created shift holds the hook's fields |
| StaffSchedule.Shift.BeforeSave | src/models/StaffSchedule.js:95-99 | the hook leaves exactly `Hook(old fields)` |
| Staff.HoursBetween | src/controllers/staffController.js:59-61 | negative iff `to` is earlier, zero iff equal, and times 3600 gives the seconds between |
| Staff.HoursWithinDay | src/controllers/staffController.js:59-61 | a forward span within one day is under 24 hours |
| Staff.FindAttendance | src/controllers/staffController.js:189-195 | the first record of that user, day and `scheduleId \|\| null`, or none when no record matches |
| Staff.Clock | src/controllers/staffController.js:182-280 | computes the outcome and table after one clock request; `ClockInRules`, `ClockOutRules` and `OtherActionsChangeNothing` state it |
| Staff.AttendanceBook.ClockAttendance | src/controllers/staffController.js:182-280 | the new table and outcome are `Clock(old table, …)`; no record is ever clocked out without a clock-in |
| Staff.ClockInRules | src/controllers/staffController.js:197-223 | refused iff today's record has a clock-in; otherwise a new `present` record is appended, or the found one is filled in; nothing else changes |
| Staff.ClockOutRules | src/controllers/staffController.js:235-259 | refused without a clock-in or after a clock-out; otherwise it stamps `now`, sets work hours to the time since the clock-in, keeps `present`, and changes only that record |
| Staff.OtherActionsChangeNothing | src/controllers/staffController.js:197-271 | any action other than `in` or `out` changes nothing and answers nothing |
| Staff.ClockKeepsOrder | src/controllers/staffController.js:236-259 | no request produces a record clocked out but not in |
| Staff.ClockDay | src/controllers/staffController.js:189-259 | in, then out, gives hours `end - start`; after that both actions are refused |
| Staff.ClashesAsWritten | src/controllers/staffController.js:40-47 | computes the lookup as written: an active shift of that user and day whose start or end lies within the new shift |
| Staff.ConflictExists | src/controllers/staffController.js:35-49 | computes the corrected check: some active shift of that user and day shares an instant; `ClashesIffSharedInstant` states it |
| Staff.ContainingShiftMissed | src/controllers/staffController.js:40-47 | as written, an existing 08-16 shift is not a conflict for a new 10-12 shift |
| Staff.ClashesIffSharedInstant | src/controllers/staffController.js:35-49 | the corrected test holds iff the shifts share an instant |
| Staff.AsWrittenMissesOnlyContaining | src/controllers/staffController.js:40-47 | the corrected test differs from the one as written only on an existing shift that contains the new one |
| Staff.OvernightShift | src/controllers/staffController.js:42-45 | a shift with its end before its start conflicts with nothing |
| Staff.NewShift | src/controllers/staffController.js:65-78 | the stored row: requested user, day and times, `scheduled`, no overtime, hours between start and end, rate default 0 |
| Staff.CreateSchedule | src/controllers/staffController.js:35-78 | refused iff the lookup as written finds a clash; otherwise the new shift has the next schedule ID (generator as written) and passes through the pay hook |
| Staff.NewShiftPay | src/controllers/staffController.js:59-76 | a new shift counts the hours from start to end and is paid those hours at the hourly rate |
| Staff.CreatedShift | src/controllers/staffController.js:35-78 | a shift is created iff the lookup as written finds no clash; a created shift keeps the request, is `scheduled`, has hours from start to end (negative overnight) and pays them at the hourly rate |
| Staff.DoubleShiftCreated | src/controllers/staffController.js:35-56 | a 10:00-12:00 shift is created beside an active 08:00-16:00 shift of the same user and day, which the corrected test refuses |
| Staff.NextScheduleIdContinues | src/controllers/staffController.js:6-16 | the schedule generator continues the day's sequence up to number 9999 |
| Staff.FirstClockInCounted | src/controllers/staffController.js:299-305 | a first clock-in of the day adds one to `todayPresent` |
| Staff.AttendanceRate | src/controllers/staffController.js:323 | 0 with nothing scheduled, otherwise rate times scheduled = 100 times present; never negative |
| Staff.AttendanceRateRange | src/controllers/staffController.js:323 | at most 100 when present <= scheduled; exactly 100 iff equal; above 100 when more are present than scheduled |
| Emergency.PriorityOf | src/models/EmergencyCase.js:80-84 | every priority lies within the column's 1-5 bounds |
| Emergency.TriageColorOf | src/controllers/emergencyController.js:38-44 | computes the colour map; `TriageMapsOrdered` and `OnlyCriticalIsFirst` state it |
| Emergency.TriageMapsOrdered | src/controllers/emergencyController.js:38-53 | priority follows the urgency order strictly; distinct levels have distinct priorities and colours |
| Emergency.OnlyCriticalIsFirst | src/controllers/emergencyController.js:38-53 | priority 1 iff critical; red iff critical |
| Emergency.RoundMinutesNearest | src/controllers/emergencyController.js:304-305 | the rounded wait is within half a minute of the exact one, and non-negative for a non-negative wait |
| Emergency.UpdateStatus | src/controllers/emergencyController.js:284-314 | computes the case after one `updateCaseStatus`; the four lemmas below state it |
| Emergency.EmergencyDesk.UpdateCaseStatus | src/controllers/emergencyController.js:284-326 | an unknown case gives 404 and changes nothing; otherwise the case becomes `UpdateStatus(…)` and the reply carries its ID, status and wait |
| Emergency.StatusAndSuppliedFields | src/controllers/emergencyController.js:297-314 | the status is written when supplied and kept otherwise; bed, doctor and notes only when non-empty; the arrival time and the ID never |
| Emergency.TreatmentStartsOnce | src/controllers/emergencyController.js:300-306 | `in_treatment` sets the start and the rounded wait only when no start exists; every other update keeps both |
| Emergency.DischargeStamped | src/controllers/emergencyController.js:308-310 | discharged or admitted stamps the discharge time; other statuses, or none supplied, keep it |
| Emergency.NextEmergencyIdContinues | src/controllers/emergencyController.js:6-16 | the emergency generator continues the day's sequence up to number 9999 |
| Emergency.SecondTreatmentKeepsWait | src/controllers/emergencyController.js:300-306 | a second `in_treatment` changes neither the start nor the wait |
| Emergency.TimesIsProduct | src/controllers/emergencyController.js:180 | repeated addition of x, n times, is n times x |
| Emergency.SumWaitsBounds | src/controllers/emergencyController.js:180 | waits between lo and hi sum to between n·lo and n·hi |
| Emergency.AverageWait | src/controllers/emergencyController.js:170-181 | computes the mean wait of the completed cases, 0 when there are none; `AverageWaitBounds` states it |
| Emergency.AverageWaitBounds | src/controllers/emergencyController.js:170-181 | when every completed wait lies between lo and hi, so does the average; it is 0 when no case has completed |

## Left out

- Database and HTTP. Sequelize queries, `include`s, pagination and the
  response envelope are left out. Queries become predicates over
  in-memory sequences. `findOne` is read as the first match, and the
  `ORDER BY` of every listing is not modelled.
- PDF generation, e-mail and the filesystem are left out, as outside
  libraries.
- Concurrency is left out, including:
  - the race between two ID generations, which the unique constraints
    guard;
  - the overlapping `drug.update` promises, which the model runs in
    order;
  - a prescription naming one drug twice, which depends on that race.
- The request validation chains are left out; they are thin library
  wrappers. Nothing restricts the payment amount, because the amount
  rule is not attached to the billing routes.
- Clocks and calendars are parameters: `today` as `YYYYMMDD`, `now` as
  an instant or a time of day. Time-zone and daylight-saving effects in
  `new Date(...)` are left out, and calendar days count as 24 hours.
- Staff.HoursBetween: does not model `new Date` rejecting a malformed
  time string (NaN hours). The times are taken as already parsed.
- Floating point is left out; money and hours are exact `real`. So are
  `toFixed(1)`/`toFixed(2)`, the rounding of `DECIMAL` columns, and
  `parseFloat` of `DECIMAL` strings.
- Staff.AttendanceRate: does not model the `toFixed(1)` string the reply
  carries, only the number before formatting.
- Staff.ClockOutRules: sets work hours to the exact hours, not their
  `toFixed(2)` rounding.
- The random attendance ID (`Math.random`) is a parameter.
- JavaScript object-key lookups such as `typePrefix[type]` treat
  inherited keys like `constructor` as present. The model treats them
  as absent.
- `toLowerCase` is modelled on ASCII letters only; Unicode case mapping
  is left out.
- `parseInt` is modelled for decimal text with leading blanks and a
  sign. Radix prefixes and digits outside ASCII are left out.
- Statuses and transaction types are enumerations, except
  `updateStock`'s type, which is parsed from its name. A request
  status outside the enumeration is rejected by the database, which is
  not modelled.
- Emergency.CaseStatus: the enumeration value `deceased` is named `Died`
  so that it does not clash with the triage level.
- `createBill`'s patient lookup and its later `update({ pdfPath })` are
  left out. The second save changes nothing, by
  `Billing.HookIdempotent`.
- The doctor lookup of `createPrescription`, and the rest of every
  create handler beyond the rules above, are left out.
- Staff.ClockInRules: writes the supplied `location`, and `None` when
  it is not supplied. Sequelize skips `undefined` fields, so the source
  keeps the old location.
- Staff.AttendanceBook.ClockAttendance: the same location rule, through
  `Clock`.
- BillingController.BillingDesk.ProcessPayment: takes `amount` as a
  number. A string `amount` from the request body would be compared
  with the `DECIMAL` balance as text, which is not modelled.
- Inventory.InventoryStore.UpdateStock: takes `quantity` as a number.
  A string `quantity` would be concatenated to the stock rather than
  added, which is not modelled.
- Listings, statistics and dashboards other than the attendance rate,
  the average wait and the alert views are left out. So are the
  remaining CRUD handlers, migrations, seeders and the schema-only
  models.
- IDs:
  - The medical-record, ward-admission and integration-code generators
    repeat the same patterns with other prefixes. They are not modelled
    separately.
  - The doctor and patient codes are modelled as schemes with their
    continuation lemmas. Their handlers are not part of this model.
- Random identifiers (dispatch IDs, log IDs, ward codes) have no
  specifiable value and are left out.

## Findings

| source | as written | input that shows it | evidently intended | confidence | as-written member | corrected member |
|---|---|---|---|---|---|---|
| src/controllers/billingController.js:24-26 | the previous number is read back with `slice(-4)`, which keeps only its last four digits | a day whose last bill is `BILL<day>10000`: the next ID is `BILL<day>0001` again, which the unique constraint rejects, and so does every later bill that day | each ID continues the day's sequence | not executed | Ids.RolloverRepeatsFirst | Ids.FixedContinues |
| src/controllers/appointmentController.js:34-37 | a conflict is an existing appointment that starts in `[start, end)`, although the comment describes interval overlap | an existing 09:00 appointment of 60 minutes, against a new booking at 09:30: no conflict is reported | interval overlap, as the day grid itself computes | not executed | Appointments.EarlierOverlapMissed | Appointments.ConflictsExactly |
| src/controllers/staffController.js:40-47 | a shift clashes when the existing shift's start or end lies within the new shift | an existing 08:00-16:00 shift, against a new 10:00-12:00 shift: no conflict | any shared instant is a conflict | not executed | Staff.ContainingShiftMissed | Staff.ClashesIffSharedInstant |

The handlers follow the code as written. They issue IDs with the
`slice(-4)` schemes, check bookings with `Appointments.ConflictsAsWritten`
(`Appointments.DoubleBookingAccepted`), and refuse shifts on
`Staff.ConflictAsWritten` (`Staff.DoubleShiftCreated`). The corrected
members stand beside them, with their properties proved:

- `Ids.Fixed` agrees with the original below 10^4
  (`Ids.FixedAgreesBelowBound`), and the IDs it issues in a row are
  pairwise distinct (`Ids.FixedNeverRepeats`).
- `Appointments.Conflicts` is interval overlap
  (`Appointments.ConflictsExactly`).
- `Staff.ConflictExists` is a shared instant
  (`Staff.ClashesIffSharedInstant`).
