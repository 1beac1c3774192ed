# Parking management: a verified model of the entry/exit lifecycle

This project models the core of a parking-management system in Dafny. The
system has two backends, a web client and one shared billing rule:

- **The newer backend (`parking-backend`).** Cars enter a lot by its code
  and use up one space. An admin completes an entry in one of two ways:
  - with an exit time the client supplies (`completeCarEntry`);
  - with the server clock (`generateExitBill`), which bills
    `ceil(hours parked) * feePerHour` and gives the space back.

  Around that lifecycle sit:
  - four date-window reports and the charges total;
  - lot creation, parking slots, and slot requests that an admin approves
    onto the suitable slot with the least number;
  - Bearer-token authentication with role gating;
  - the account handlers with their `$1..$n` profile-update builder.
- **The older backend (`PMS-Backend`).** Parkings hand out tickets. An entry
  is `active` until its exit completes it, bills it and frees its space.
- **The web client (`api.ts`).** Its response interceptor renames MongoDB's
  `_id` to `id`. Its error interceptor rewrites the messages of
  duplicate-key and validation errors.

## Modules

| file | module | models |
|---|---|---|
| `common.dfy` | `Common` | Option/Result, ceiling division, decimal rendering, `Join`, `Filter` |
| `billing.dfy` | `Billing` | billable hours and the charge |
| `paging.dfy` | `Paging` | `.skip((page-1)*limit).limit(limit)` and `Math.ceil(total/limit)` |
| `car_entries.dfy` | `CarEntries` | `carEntr.js`: class `ParkingStore` and the reports |
| `parking_lots.dfy` | `ParkingLots` | `parkingLot.js` and `parkingLotController.js` |
| `pms_parking.dfy` | `PmsParking` | the older `parkingController.js`: class `ParkingDesk` |
| `slots.dfy` | `Slots` | `slotController.js`: class `SlotInventory` |
| `slot_requests.dfy` | `SlotRequests` | `requestController.js`: class `RequestBook` |
| `auth.dfy` | `Auth` | `middleware/auth.js` |
| `accounts.dfy` | `Accounts` | register, login and getProfile of `userController.js` and `authController.js`: class `UserTable` |
| `profile_update.dfy` | `ProfileUpdate` | the two `updateProfile` statement builders |
| `json.dfy` | `Json` | JSON values and the JavaScript operations the client applies to them |
| `api_client.dfy` | `ApiClient` | the two interceptors of `api.ts`: classes `Response` and `RequestFailure` |

### Modelling choices

**Handlers and state.**
- A handler that changes stored records is a method of a class. The class's
  fields are the collections the handler updates. Its `ensures` state the
  whole new state in terms of the old one, and every error answer leaves
  the state as it was.
- The classes keep their invariants:
  - `ParkingDesk.Balanced`: the free spaces plus the active entries of a
    parking equal its total;
  - `RequestBook.SlotsHeld`: every approved request holds its own
    unavailable slot;
  - `SlotInventory.Valid`: slot numbers and slot ids are unique;
  - `UserTable.Valid`: emails are unique.
- A handler that only reads is a function.

**Time and money.**
- Timestamps are integer milliseconds. The current time is a parameter.
- Fees and charges are exact `real` numbers.
- Billable hours are the integer ceiling of milliseconds over 3 600 000,
  as `Math.ceil` computes them. There is no minimum of one hour, so a 0 ms
  stay bills 0, and no check that the exit follows the entry.

**JavaScript values.**
- A request field that is missing or falsy is `""` when it is a string.
  When the distinction matters it is `None` or a `NumArg` kind.
- A record field that a schema does not declare is an `Option`; `None` is
  `undefined`.
- `exitTime` has three values (`ExitStamp`): never set, null, or a date.

**Outside code as parameters.**
- bcrypt (`hash`, `compare`).
- JWT verification (`verify`).
- The PMS ticket-number generator (the ticket is passed in).
- The vehicle collection (a `map` passed in).

### Source behaviour the model keeps

The model follows the code where the code and its evident purpose part.

- **Lot counters in the newer backend.**
  - The lot schema (`parking-backend/src/models/User.js:11-17`) declares
    only `spaces`.
  - `addCarEntry` tests and decrements `available_spaces`, and
    `completeCarEntry` increments it. A lot without the counter is never
    full: `undefined <= 0` is false. `undefined ± 1` leaves the counter
    absent.
  - `generateExitBill` increments `spaces`, the capacity, instead.
  - Neither increment is bounded by the capacity.
- **Where completion looks up the lot.** `completeCarEntry` looks the lot up
  by the entry's `parkingCode`. The entry schema does not declare that
  field, so the entry addCarEntry stores has none, and the lookup finds no
  lot. `generateExitBill` uses the entry's own lot.
- **No path completes a new entry.** With both defects, an entry that
  `addCarEntry` has just stored is answered "Parking lot not found" by
  `completeCarEntry` and "already exited" by `generateExitBill`
  (`CarEntries.FreshEntryStaysOpen`). A document loaded under strict mode
  has no accessor for `parkingCode` either, so `completeCarEntry` finds no
  lot for any stored entry; its success path needs strict mode off (see
  Left out). `generateExitBill` completes only entries stored with a null
  exit time.
- **`generateExitBill` refuses every new entry.** It proceeds only when
  `exitTime` is exactly `null`. The schema gives `exitTime` no default, so
  an entry `addCarEntry` created has it undefined and is refused as
  "already exited" (`CarEntries.NewEntryRefusedByExitBill`).
- **Where the amount goes.** `completeCarEntry` writes `duration_hours` and
  `total_amount` and leaves `charge` at 0. The charges report sums `charge`,
  so completions through that path never count
  (`CarEntries.ChargesUnaffectedByNewEntry`).
- **The other undeclared fields are kept.** The model keeps
  `available_spaces`, `duration_hours` and `total_amount` as the handlers
  write them. It does not simulate Mongoose's strict mode for them, which
  would drop them on save and would also hide them when a document is
  loaded. Under strict mode `parkingLot.available_spaces` reads undefined
  for every lot, so `NoAvailableSpaces` cannot occur; the model answers it
  only for a lot whose record carries the counter. Lots that
  `addParkingLot` stores have no counter in either reading.
- **Register and login have no route.** `app.js` mounts `userRoutes`,
  which serves only the two profile routes, under both `/api/auth` and
  `/api/users`, and never mounts `authRoutes`. So neither copy of
  `register` and `login` is reachable; they are modelled as the handlers
  they would be.
- **A zero fee in `createParkingLot`.** The falsy test refuses the number
  0 as a fee, although the later message speaks of a non-negative fee. The
  string "0", which is what a form submits, is truthy and passes; the
  string "0" as the capacity is refused as not positive
  (`ParkingLots.ZeroAsTextExamples`).
- **`createParkingLot` cannot store a lot.** Besides the missing import
  (see Findings), it writes `total_spaces` and `available_spaces`, while
  the lot schema requires `spaces`. The save would fail with 500 even with
  the import in place. `parkingLot.js` exports nothing, so no route reaches
  the handler.
- **Retargeting a request.** `updateRequest` does not check for a pending
  request of the new vehicle. It can therefore give one vehicle two pending
  requests (`SlotRequests.RetargetCanBreakOnePending`).
- **An unknown id in `getProfile`.** The `getProfile` of
  `userController.js` answers an empty 200 when no row matches
  (`Accounts.UserTable.FindProfile`). The `authController.js` copy answers
  404.

## Model

| member | source | states |
|---|---|---|
| `Billing.DurationHours` | parking-backend/src/controllers/carEntr.js:63-65 | the real-valued hours parked are the milliseconds over 3 600 000 exactly: times 3 600 000 they give the duration back, and they are non-negative iff the stay is |
| `Billing.ChargeBounds` | parking-backend/src/controllers/carEntr.js:65-72 | `Charge`, `Math.ceil(durationHours) · feePerHour`, at a positive fee is at least the exact pro-rata amount and less than one hour's fee above it |
| `Billing.BillableHours` | parking-backend/src/controllers/carEntr.js:118-121 | the hours billed are the least whole number h with duration ≤ h·3 600 000 ms |
| `Billing.BillableHoursIsCeilingOfHours` | parking-backend/src/controllers/carEntr.js:65-72 | the integer hours are the ceiling of the real-valued `durationHours` |
| `Billing.ChargeExamples` | parking-backend/src/controllers/carEntr.js:72 | 30 min bills one hour, 61 min two, 90 min at 5/h costs 10, a 0 ms stay costs 0 |
| `Billing.HoursOfSpan` | parking-backend/src/controllers/carEntr.js:118-121 | any duration in ((h−1) hours, h hours] bills exactly h |
| `Billing.WholeHours` | parking-backend/src/controllers/carEntr.js:118-121 | k whole hours bill k, and one more millisecond bills k+1 |
| `Billing.NonPositiveStay` | parking-backend/src/controllers/carEntr.js:115-122 | an exit no later than the entry bills at most 0 hours, and at most 0 with a non-negative fee, since exit ≥ entry is not checked |
| `Billing.ChargeMonotone` | parking-backend/src/controllers/carEntr.js:115-122 | with a non-negative fee, a later exit never bills less |
| `Paging.Window` | parking-backend/src/controllers/slotController.js:118-121 | the page fails iff the skip is negative; otherwise it is the slice of at most `limit` results starting at `(page−1)·limit`, and a limit of 0 is no limit |
| `Paging.TotalPages` | parking-backend/src/controllers/slotController.js:138 | `ceil(total/limit)`: the least p with total ≤ p·limit; none for a limit of 0 |
| `Paging.FirstPagesArePrefix` | parking-backend/src/controllers/requestController.js:141-142 | the first p pages concatenated are the first p·limit results |
| `Paging.PagesCoverResults` | parking-backend/src/controllers/requestController.js:141-159 | pages 1..totalPages hold every result once in order, and the page after them is empty |
| `CarEntries.Shifted` | parking-backend/src/controllers/carEntr.js:33 | adding to the `available_spaces` counter moves it by exactly that amount, and an absent counter stays absent |
| `CarEntries.NewEntry` | parking-backend/src/controllers/carEntr.js:24-30 | the stored entry carries the request's plate, lot and entry time and the caller's id; its exit time is unset, its charge the schema default 0, and it has no `parkingCode`, `duration_hours` or `total_amount` |
| `CarEntries.NewEntryRefusedByExitBill` | parking-backend/src/controllers/carEntr.js:104-107 | an entry as addCarEntry creates it has no exit date, yet passes the `!== null` test, so generateExitBill refuses it |
| `CarEntries.ParkingStore.constructor` | parking-backend/src/models/User.js:11-26 | a store built from lots keyed by their unique code satisfies the store invariant |
| `CarEntries.ParkingStore.AddCarEntry` | parking-backend/src/controllers/carEntr.js:4-42 | each of the three failures holds exactly when its guard fails, and then no lot or entry changes; on success one entry with no exit time and charge 0 is appended, and only that lot's counter drops by 1 |
| `CarEntries.ParkingStore.CompleteCarEntry` | parking-backend/src/controllers/carEntr.js:44-89 | four failures, each iff its guard fails, with nothing changed; on success the entry gets the exit time, the real hours and the billed amount, `charge` is untouched, and only that lot's counter rises by 1, unbounded |
| `CarEntries.ParkingStore.GenerateExitBill` | parking-backend/src/controllers/carEntr.js:91-158 | refuses an entry whose exit time is anything but null; an unknown lot answers 500 with nothing changed; otherwise the exit time is `now`, the charge is the billed amount, and the lot's `spaces` capacity rises by 1 |
| `CarEntries.ParkingStore.ActiveEntries` | parking-backend/src/controllers/carEntr.js:326-338 | exactly the stored entries without an exit date |
| `CarEntries.ParkingStore.ClientEntries` | parking-backend/src/controllers/carEntr.js:311-324 | exactly the stored entries of the calling user |
| `CarEntries.FreshEntryStaysOpen` | parking-backend/src/controllers/carEntr.js:4-107 | after a successful addCarEntry, completeCarEntry answers "Parking lot not found" and generateExitBill "already exited"; the entry stays open and the lot keeps the space it lost |
| `CarEntries.CompletionIsFinal` | parking-backend/src/controllers/carEntr.js:44-107 | for an entry that completeCarEntry does complete (one whose `parkingCode` reads back, which needs strict mode off), the entry then has that exit date, its lot's counter rises by 1, and neither completion path accepts it again, so nothing further changes |
| `CarEntries.ParseWindow` | parking-backend/src/controllers/carEntr.js:165-186 | a missing date is "required", an unparseable one is "invalid format", and only two dates give a window |
| `CarEntries.Incoming` | parking-backend/src/controllers/carEntr.js:195-228 | exactly the entries whose entry time lies in [start, end + 1 day) |
| `CarEntries.Outgoing` | parking-backend/src/controllers/carEntr.js:160-193 | exactly the entries with an exit date in [start, end + 1 day) |
| `CarEntries.AllInRange` | parking-backend/src/controllers/carEntr.js:276-309 | exactly the entries whose entry or exit time is in the window; it contains both other reports |
| `CarEntries.EitherModeExample` | parking-backend/src/controllers/carEntr.js:296-302 | an entry that arrived before the window and left inside it is in the combined report but not the incoming one |
| `CarEntries.ChargesTotal` | parking-backend/src/controllers/carEntr.js:230-274 | the total is non-negative, and it is 0 exactly when no entry left in the window with a positive charge |
| `CarEntries.ChargesTotalAppend` | parking-backend/src/controllers/carEntr.js:250-267 | the total over two runs of entries is the sum of their totals |
| `CarEntries.ChargesUnaffectedByNewEntry` | parking-backend/src/controllers/carEntr.js:75-78 | appending an entry without an exit date or without a positive charge leaves the total unchanged |
| `ParkingLots.ValidateCreate` | parking-backend/src/controllers/parkingLot.js:6-17 | "required" iff some field is falsy, so the numbers 0 are refused but the strings "0" are not; "positive" iff the count does not read as a positive number; "non-negative" iff the fee does not read as a number ≥ 0; otherwise it passes |
| `ParkingLots.ZeroAsTextExamples` | parking-backend/src/controllers/parkingLot.js:6-13 | a fee of the number 0 is "required", a fee of "0" passes, and a capacity of "0" is "not positive" |
| `ParkingLots.CreateParkingLotAsWritten` | parking-backend/src/controllers/parkingLot.js:1-41 | as written, every request fails: with its validation error, or with 500 from the model that is never imported |
| `ParkingLots.CreateParkingLotAsWrittenFailsOnValidInput` | parking-backend/src/controllers/parkingLot.js:20 | a request passing every check still answers 500 |
| `ParkingLots.CreateWithSchemaAsWritten` | parking-backend/src/controllers/parkingLot.js:19-39 | with the import in place but the schema as written, a valid request still fails: a known code is refused, and a fresh one answers 500 because `spaces` is missing |
| `ParkingLots.CreateFailsOnSchemaAsWritten` | parking-backend/src/models/User.js:11-17 | a valid request with a fresh code answers 500 under that schema |
| `ParkingLots.CreatedLot` | parking-backend/src/controllers/parkingLot.js:26-33 | the lot as intended: `total_spaces` taken as the capacity, which is positive, a fee ≥ 0 (positive when given as a number), and `available_spaces` equal to the capacity |
| `ParkingLots.CreatedLotHasRoom` | parking-backend/src/controllers/parkingLot.js:30 | a freshly created lot is not full, so addCarEntry accepts cars for it |
| `ParkingLots.CreateParkingLot` | parking-backend/src/controllers/parkingLot.js:1-41 | as intended (model imported, `total_spaces` stored as the capacity): validation errors are passed through; a known code is refused iff validation passed; otherwise exactly one lot is added under its code; entries never change |
| `ParkingLots.AddParkingLot` | parking-backend/src/controllers/parkingLotController.js:4-40 | "required" iff a string field is falsy or a number is undefined, so 0 spaces and any fee pass; a duplicate code is refused with no insert; a null, non-numeric or empty-string number fails on save; the stored lot carries exactly the five given fields |
| `ParkingLots.ParkingLotList` | parking-backend/src/controllers/parkingLotController.js:42-52 | every stored lot and nothing else, unfiltered |
| `PmsParking.ActiveCountIsHeldEntries` | PMS-Backend/controllers/parkingController.js:100-117 | the count is the number of entries that are active against that parking, and it is 0 iff there is none |
| `PmsParking.ActiveCountAppend` | PMS-Backend/controllers/parkingController.js:106-117 | a recorded entry adds one active entry to its own parking and none to any other |
| `PmsParking.ActiveCountUpdate` | PMS-Backend/controllers/parkingController.js:145-153 | replacing an entry changes a parking's active count by what the new entry holds minus what the old one held |
| `PmsParking.EntryKeepsBalance` | PMS-Backend/controllers/parkingController.js:106-116 | a new active entry with one space taken from its parking keeps `availableSpaces` plus active entries equal to `totalSpaces` for every parking |
| `PmsParking.ExitKeepsBalance` | PMS-Backend/controllers/parkingController.js:145-152 | completing an active entry and giving its parking one space back keeps that balance for every parking |
| `PmsParking.ParseStatus` | PMS-Backend/controllers/parkingController.js:26 | an empty status keeps the old one; "available" and "unavailable" are the only other accepted words |
| `PmsParking.Patched` | PMS-Backend/controllers/parkingController.js:22-27 | the name and location keep their old value when the new one is empty; the count and price do so only when absent; code, total and admin never change |
| `PmsParking.PatchedExamples` | PMS-Backend/controllers/parkingController.js:23-25 | a 0 count and a 0 price replace the old ones, an empty name does not, and an empty body only moves `updatedAt` |
| `PmsParking.ParkingDesk.constructor` | PMS-Backend/controllers/parkingController.js:61-82 | an empty desk is valid and balanced |
| `PmsParking.ParkingDesk.CreateParking` | PMS-Backend/controllers/parkingController.js:61-82 | fails iff a required field is missing or the code or name is already used; otherwise it adds one available parking whose free spaces equal its total, and keeps the desk balanced |
| `PmsParking.ParkingDesk.RecordEntry` | PMS-Backend/controllers/parkingController.js:95-126 | an unknown or full parking gives the same "Parking is full" with no change; on success one active entry with the ticket is added and only that parking loses one space; balance is kept |
| `PmsParking.ParkingDesk.FindActiveTicket` | PMS-Backend/controllers/parkingController.js:133-136 | finds an entry that has the ticket and is active, or reports that none exists |
| `PmsParking.ActiveTicketIsUnique` | PMS-Backend/controllers/parkingController.js:106-117 | with tickets issued once each, one entry at most has a given ticket |
| `PmsParking.ParkingDesk.RecordExit` | PMS-Backend/controllers/parkingController.js:129-168 | errors are only 404 and 500; 404 iff no active entry has the ticket, and 500 iff that entry's parking is gone, with no change either way; on success that entry is completed at `now` with `ceil(hours)·price`, the bill carries those hours, its parking gains one space, and balance is kept |
| `PmsParking.ParkingDesk.UpdateParking` | PMS-Backend/controllers/parkingController.js:7-39 | only these three errors, each with nothing changed: 404 iff the id is unknown; a status outside the enum is a 500; a name used by another parking is "parkingName must be unique"; otherwise only that parking becomes its patched self, with no bound on availableSpaces |
| `PmsParking.ParkingDesk.AvailableParkings` | PMS-Backend/controllers/parkingController.js:85-92 | exactly the parkings whose status is available, unchanged |
| `PmsParking.ParkingDesk.ParkingEntries` | PMS-Backend/controllers/parkingController.js:171-197 | fails iff both dates are given and one does not parse; otherwise exactly the entries in the closed period (only when both dates are given) and of the selected status |
| `PmsParking.NoActiveEntriesFor` | PMS-Backend/controllers/parkingController.js:65-75 | a parking created after every recorded entry holds none of them |
| `PmsParking.OtherTypesDoNotFilter` | PMS-Backend/controllers/parkingController.js:183-187 | a type other than active or completed selects every entry |
| `Slots.InsertOrdered` | parking-backend/src/controllers/slotController.js:13-26 | an ordered insertMany inserts a prefix of the batch with consecutive ids; it stops only at a number already present, and it keeps the numbers unique |
| `Slots.FreshBatchInsertedWhole` | parking-backend/src/controllers/slotController.js:13 | a batch of fresh, pairwise distinct numbers is inserted whole |
| `Slots.DuplicateInBatchExample` | parking-backend/src/controllers/slotController.js:24-25 | with a repeated number in the batch, the first slot goes in and the second stops the insert |
| `Slots.IndexOfId` | parking-backend/src/controllers/slotController.js:36 | finds the slot with that id, or reports that none exists |
| `Slots.Patch` | parking-backend/src/controllers/slotController.js:36-47 | each given field replaces the stored one, each absent field keeps it, and the id never changes |
| `Slots.EmptyPatchIsIdentity` | parking-backend/src/controllers/slotController.js:36-47 | an update with no fields changes nothing |
| `Slots.SortedPairs` | parking-backend/src/controllers/slotController.js:119 | order between neighbours gives order between any two slots |
| `Slots.InsertByNumber` | parking-backend/src/controllers/slotController.js:119 | inserting into a sorted run keeps it sorted and adds exactly that slot |
| `Slots.SortByNumber` | parking-backend/src/controllers/slotController.js:119 | the result is sorted by slot number and is a permutation of the input |
| `Slots.BuildQuery` | parking-backend/src/controllers/slotController.js:95-115 | an explicit status wins; otherwise a user is limited to available slots and an admin is not; size is an exact filter exactly when given |
| `Slots.ListSlots` | parking-backend/src/controllers/slotController.js:91-144 | the page is exactly the `Paging.Window` of the matching slots sorted by number: sorted, only matches, at most `limit`; its total counts every match and its page count is the ceiling |
| `Slots.ListingPagesCover` | parking-backend/src/controllers/slotController.js:117-138 | the listing's pages 1..totalPages hold the sorted matches once each, in order, and the listing of the next page is empty |
| `Slots.SlotInventory.AddSlots` | parking-backend/src/controllers/slotController.js:5-29 | a non-array body, or any spec the schema refuses, fails with nothing inserted; a valid batch is inserted as an ordered insertMany: a duplicate number stops it and keeps the slots inserted before |
| `Slots.SlotInventory.UpdateSlot` | parking-backend/src/controllers/slotController.js:31-67 | errors are only these two: 404 iff the id is unknown, and a number taken by another slot; only that slot becomes its patched self; nothing changes on failure |
| `Slots.SlotInventory.DeleteSlot` | parking-backend/src/controllers/slotController.js:69-89 | 404 iff the id is unknown, with nothing changed; otherwise exactly that slot is removed and the others keep their order |
| `Slots.SlotInventory.SlotsForVehicle` | parking-backend/src/controllers/slotController.js:146-165 | 404 iff the vehicle is not the caller's; otherwise exactly the available slots of its type and size |
| `Slots.SlotInventory.FindBestSlot` | parking-backend/src/controllers/requestController.js:183-187 | the suitable slot with the least number, or none iff no slot suits |
| `Slots.SlotInventory.MarkUnavailable` | parking-backend/src/controllers/requestController.js:194-196 | only the status of that slot changes, to unavailable |
| `Slots.AppendFreshIds` | parking-backend/src/controllers/slotController.js:13 | slots added with consecutive fresh ids keep ids unique and below the counter |
| `Slots.BestSlotIsUnique` | parking-backend/src/controllers/requestController.js:183-187 | with unique numbers, two least suitable slots are the same slot |
| `SlotRequests.RetargetCanBreakOnePending` | parking-backend/src/controllers/requestController.js:64-71 | retargeting one of two pending requests to the other's vehicle gives that vehicle two pending requests |
| `SlotRequests.RequestIndex` | parking-backend/src/controllers/requestController.js:171 | finds the request with that id, or reports that none exists |
| `SlotRequests.ListRequests` | parking-backend/src/controllers/requestController.js:113-165 | the page is exactly the `Paging.Window` of the listed requests in stored order: a user sees only their own, every one matches the status, at most `limit` per page; the total and page count are those of all matches |
| `SlotRequests.RequestPagesCover` | parking-backend/src/controllers/requestController.js:141-159 | the listing's pages 1..totalPages hold the matching requests once each, in order, and the listing of the next page is empty |
| `SlotRequests.UnknownStatusListsNothing` | parking-backend/src/controllers/requestController.js:131-133 | a status that names none of the three matches no request |
| `SlotRequests.PrependKeepsHeld` | parking-backend/src/controllers/requestController.js:25-29 | a new pending request keeps every approved request's slot held |
| `SlotRequests.ReplaceKeepsHeld` | parking-backend/src/controllers/requestController.js:238-240 | replacing a request by one not approved keeps the held slots |
| `SlotRequests.RemoveKeepsHeld` | parking-backend/src/controllers/requestController.js:90-94 | withdrawing a request keeps the held slots |
| `SlotRequests.RemoveKeepsOrder` | parking-backend/src/controllers/requestController.js:90-94 | withdrawing a request keeps the others in order, keeps newest-first ids, and keeps one pending request per vehicle |
| `SlotRequests.ApprovalKeepsHeld` | parking-backend/src/controllers/requestController.js:194-202 | approving a pending request onto an available slot keeps every approved request on its own unavailable slot, so two approvals never share a slot |
| `SlotRequests.RequestBook.CreateRequest` | parking-backend/src/controllers/requestController.js:7-42 | only these two errors: a vehicle that is not the caller's, or one with a pending request, is refused with no change; otherwise one pending request is prepended; one-pending-per-vehicle and the held slots are kept |
| `SlotRequests.RequestBook.UpdateRequest` | parking-backend/src/controllers/requestController.js:44-84 | only these two 404s: 404 iff not the caller's pending request, or the new vehicle is not theirs, with no change; otherwise only that request's vehicle changes |
| `SlotRequests.RequestBook.DeleteRequest` | parking-backend/src/controllers/requestController.js:86-111 | 404 iff not the caller's pending request, with no change; otherwise exactly that request is removed |
| `SlotRequests.RequestBook.ApproveRequest` | parking-backend/src/controllers/requestController.js:167-223 | only four errors: unknown, not pending, vehicle missing, or (iff found, pending and the vehicle exists) no suitable slot, each with nothing changed; on success the least suitable slot becomes unavailable and the request approved with it; held slots are kept |
| `SlotRequests.RequestBook.RejectRequest` | parking-backend/src/controllers/requestController.js:225-253 | only two errors: unknown or not pending fail with no change; otherwise only that request becomes rejected |
| `Auth.ReplaceFirst` | parking-backend/src/middleware/auth.js:15 | `String.replace` with a leading match drops just that prefix, and a string without the pattern is returned unchanged |
| `Auth.TokenIsRest` | parking-backend/src/middleware/auth.js:11-15 | after the prefix test, the token is the header minus its first seven characters |
| `Auth.OnlyFirstPrefixRemoved` | parking-backend/src/middleware/auth.js:15 | a second "Bearer " inside the token is kept |
| `Auth.ErrorMessage` | parking-backend/src/middleware/auth.js:32-38 | the three JWT error names map to their messages; every other name gives "Authentication failed" |
| `Auth.Authenticate` | parking-backend/src/middleware/auth.js:4-40 | every header shape gets its 401 message; a payload without ids is refused; otherwise `id` is the payload's `id` when truthy, else `_id`; success implies a Bearer header and a non-empty id |
| `Auth.AuthenticateOnlyAsksVerifier` | parking-backend/src/middleware/auth.js:20-29 | two verifiers that agree on the token give the same outcome |
| `Auth.AuthorizeRoles` | parking-backend/src/middleware/auth.js:42-60 | 401 iff there is no user; the caller passes iff their role is listed, and is then unchanged; otherwise 403 names the roles |
| `Auth.AuthorizeMonotone` | parking-backend/src/middleware/auth.js:53 | listing more roles never refuses a caller who was admitted |
| `Accounts.EmailIndex` | parking-backend/src/controllers/userController.js:12-13 | the first row with the email, or none iff no row has it |
| `Accounts.IdIndex` | parking-backend/src/controllers/authController.js:63-65 | a row with the id, or none iff no row has it |
| `Accounts.LoginIn` | parking-backend/src/controllers/userController.js:36-66 | an unknown email and a wrong password both give "Invalid credentials"; a missing password for a known email gives 500, as bcrypt throws; it succeeds iff the email is on file and bcrypt accepts the password; the claims are that user's id, email and role |
| `Accounts.LoginAfterInsert` | parking-backend/src/controllers/authController.js:30-54 | a user added under a fresh email logs in with a password bcrypt accepts for their hash; other emails log in as before |
| `Accounts.EmailIndexAppend` | parking-backend/src/controllers/userController.js:41-42 | appending a row does not move an earlier match, and a fresh email is found in the new last row |
| `Accounts.UserTable.constructor` | parking-backend/src/controllers/userController.js:22-25 | an empty table is valid and its serial counter starts at 1 |
| `Accounts.UserTable.Register` | parking-backend/src/controllers/userController.js:7-34 | as the handler would be, since no route mounts it: "User already exists" iff the email is on file; otherwise 500 iff the password is missing, as bcrypt throws; no insert on either error; otherwise one row is appended with the serial id, the hash of the password and the role, `'user'` by default; emails stay unique |
| `Accounts.UserTable.FindProfile` | parking-backend/src/controllers/userController.js:68-75 | the selected columns of the row with that id; none iff no row has it, and the handler then answers an empty 200 |
| `Accounts.UserTable.GetProfile` | parking-backend/src/controllers/authController.js:56-71 | 404 "User not found" iff no row has the id; otherwise the id, name, email and role of a row with that id |
| `Accounts.RegisterThenLogin` | parking-backend/src/controllers/authController.js:7-54 | after a successful register, login with the same password yields the new user's claims; a refused register leaves login as it was |
| `ProfileUpdate.ColumnsAreTruthyFields` | parking-backend/src/controllers/userController.js:86-104 | a column is set iff its field is truthy, in the order name, email, password |
| `ProfileUpdate.NumberedPush` | parking-backend/src/controllers/authController.js:80-98 | one push onto both arrays keeps clause i bound to placeholder i+1 and value i |
| `ProfileUpdate.CollectSetClauses` | parking-backend/src/controllers/userController.js:81-104 | clause i is `<column> = $(i+1)`, and value i is that column's value, the hash for the password; `paramCount` is one past the last placeholder |
| `ProfileUpdate.BuildProfileUpdate` | parking-backend/src/controllers/userController.js:77-122 | "No updates provided" iff every field is empty; otherwise the statement joins the numbered clauses, adds `updated_at` for this handler (not for the authController.js copy) and ends with `WHERE id = $(n+1)`; there are n+1 values, the last being the user id |
| `ProfileUpdate.PlaceholdersDistinct` | parking-backend/src/controllers/userController.js:86-104 | different positions get different placeholder numbers, so no placeholder is used twice |
| `ProfileUpdate.NameAndPasswordExample` | parking-backend/src/controllers/userController.js:86-111 | a name and a password give `name = $1`, `password = $2` and `WHERE id = $3` |
| `Json.Get` | parking-frontend/src/services/api.ts:30 | the value under the first occurrence of the key; undefined iff the key is absent |
| `Json.GetCons` | parking-frontend/src/services/api.ts:30 | reading through a leading pair finds that pair's key first |
| `Json.Set` | parking-frontend/src/services/api.ts:31 | the key then reads the new value and every other key reads as before; an existing key keeps its place and every key stays where it was, a new one goes last |
| `Json.Remove` | parking-frontend/src/services/api.ts:32 | the key then reads undefined and every other key reads as before |
| `Json.JoinText` | parking-frontend/src/services/api.ts:66-67 | `join` writes null as "" and a string as itself |
| `ApiClient.RenameId` | parking-frontend/src/services/api.ts:30-33 | a truthy `_id` becomes `id` and disappears; without one the object is unchanged; other keys and non-objects never change |
| `ApiClient.RenameIdIdempotent` | parking-frontend/src/services/api.ts:30-33 | renaming twice equals renaming once |
| `ApiClient.RenamedItems` | parking-frontend/src/services/api.ts:35-41 | a null element makes the map throw; otherwise each element is renamed, and length and order are kept |
| `ApiClient.RenameEach` | parking-frontend/src/services/api.ts:35-41 | the element-by-element loop computes the renamed items |
| `ApiClient.RenamedItemsIdempotent` | parking-frontend/src/services/api.ts:35-41 | renaming the elements twice equals renaming them once |
| `ApiClient.Normalised` | parking-frontend/src/services/api.ts:28-54 | a non-object body is kept; an array body is renamed element-wise or throws on a null element; an object body stays an object |
| `ApiClient.NormalisedObject` | parking-frontend/src/services/api.ts:29-50 | on an object body `_id` is renamed, a nested `data` array has its elements renamed, and every other key keeps its value |
| `ApiClient.SetExisting` | parking-frontend/src/services/api.ts:44 | writing back the value a key already has changes nothing |
| `ApiClient.NormalisedIdempotent` | parking-frontend/src/services/api.ts:29-50 | normalising a normalised body changes nothing |
| `ApiClient.NullItemThrows` | parking-frontend/src/services/api.ts:35-36 | a null element in an array body makes the interceptor throw |
| `ApiClient.Response.Intercept` | parking-frontend/src/services/api.ts:27-54 | the in-place rewrite throws exactly when the normalisation does, and otherwise leaves the normalised body |
| `ApiClient.EntryMessage` | parking-frontend/src/services/api.ts:66 | `err.message` of an error entry: its string when it has one, and a throw iff the entry is null |
| `ApiClient.ErrorValues` | parking-frontend/src/services/api.ts:65 | a missing or falsy `errors` gives no values; an object gives its values in order |
| `ApiClient.ValidationText` | parking-frontend/src/services/api.ts:65-67 | the entries' messages joined with ", ", or a throw iff some entry is null |
| `ApiClient.MappedMessage` | parking-frontend/src/services/api.ts:60-69 | code 11000 gives the duplicate message; otherwise a ValidationError gives the joined messages; every other body, and no body, keeps the message |
| `ApiClient.ValidationExample` | parking-frontend/src/services/api.ts:64-67 | a validation error with messages "a" and "b" reads "a, b" |
| `ApiClient.DuplicateCodeFirst` | parking-frontend/src/services/api.ts:62-64 | the duplicate-key code wins over the error's name |
| `ApiClient.RequestFailure.Intercept` | parking-frontend/src/services/api.ts:55-71 | the error's message becomes the mapped one, or the interceptor throws exactly when the mapping does |

## Left out

- Express wiring is not modelled: routes, `app.js`, the Swagger definition and the JWT configuration only register handlers.
- Each stored collection is a field of the class that owns it. Database behaviour is left out:
  - Mongoose/pg I/O and `populate`;
  - Mongoose's strict mode, which drops fields a schema does not declare, except for the entry's `parkingCode`, whose loss decides completeCarEntry;
  - malformed ObjectIds, which throw a cast error (500).
- The try/catch answers 500 on a database failure. These are not modelled, except where a guard of the handler itself leads there.
- The case-insensitive `$regex` searches of getSlots, getRequests and the getSlots `vehicleType` filter are left out, because regular-expression semantics are not modelled. The other filters are.
- The approval email and the audit log (`Log.create`, `logAction`) are side effects outside the model.
- Transactions and concurrency are not modelled:
  - each handler is one atomic step;
  - the non-atomic save order of addCarEntry and the session of generateExitBill are not simulated;
  - neither are the races between the duplicate checks and the inserts.
- Floating point and dates are not modelled:
  - durations are exact reals;
  - `setDate(+1)` is taken as 86 400 000 ms, with no DST;
  - the `isNaN(entryTime)` check of generateExitBill cannot fail on an integer timestamp.
- `Slots.ListSlots` and `SlotRequests.ListRequests` take `page` and `limit` from their caller. The defaults `page = 1` and `limit = 10` that getSlots and getRequests apply to a query without them are not modelled.
- Query-string coercion of `page` and `limit` is not modelled: they are an `int` and a `nat`, and a limit of 0 is taken as no limit.
- Timestamps are not modelled: parking-backend's `createdAt`, `updatedAt` and `created_at`, and the slot's and the request's `updatedAt`. PmsParking does keep its parking's `updatedAt`.
- bcrypt and jsonwebtoken are parameters: `hash`, `compare` and `verify`. Token signing and expiry are theirs.
- The PMS ticket-number generator is not part of this model; the ticket is a parameter.
- The PMS `deleteParking`, the PMS userController and vehicleController and the newer vehicleController are plain CRUD with no logic beyond what is covered.
- `CarEntries.ParkingStore.CompleteCarEntry`: an entry without a `parkingCode` is taken to find no lot. Mongoose may instead drop the undefined key from the filter `{ code: undefined }`, which then matches an arbitrary lot; which of the two happens depends on the Mongoose version and settings.
- A missing password is `None` in register and login. A missing name or email is `""`, and the role default is applied when the role is absent. An explicit null role, which skips the default and is inserted as NULL, is not modelled.
- `req.user.id` is a string in `Auth` and `ProfileUpdate`, as it comes from the token payload and is passed to pg, and a `nat` in `Accounts`, the SERIAL column pg compares it with. The conversion pg performs between the two is not modelled.
- The SQL statements are built but never executed. The meaning of `WHERE email = $1` for an undefined email is not modelled.
- In `api.ts`, the 401 redirect and token clearing are browser side effects. So is the request interceptor that attaches the token.
- JSON numbers are integers. `Object.values` lists an object's integer-like keys first in JavaScript, and the model keeps insertion order.
- The interceptor mutates `response.data` and its items in place, and items shared between arrays are not modelled as aliases.
- `ApiClient.Response.Intercept`: when the interceptor throws, the contents of `data` are left unspecified. In the source, elements renamed before the null one stay renamed.
- `CarEntries.ParkingStore.AddCarEntry`: the entry time is a parsed timestamp or absent. A present but unparseable `entryTime` passes `!entryTime`, then fails the Date cast in `carEntry.save()` after the lot's counter was saved, and answers 500; that path is not modelled.
- `CarEntries.ParkingStore.CompleteCarEntry`: the success path, which reads a stored `parkingCode` naming a lot, stands for a record read with strict mode off. Under the default strict mode the field has no accessor on a loaded document, so the source always looks the lot up by `{ code: undefined }`.
- `CarEntries.ParkingStore.AddCarEntry`: `NoAvailableSpaces` stands for a lot read with strict mode off. Under strict mode `available_spaces` reads undefined on every loaded lot, and the guard never fires.
- `CarEntries.ParkingStore.CompleteCarEntry`: the exit time is taken as already parsed. `new Date(exitTime)` on an unparseable string gives NaN durations, which are not modelled.
- `PmsParking.ParkingDesk.CreateParking`: the model does not check the schema's min/type validation of numbers. A required field is only tested for presence.
- `PmsParking.ParkingDesk.UpdateParking`: `availableSpaces` and `pricePerHour` are a number or absent. A non-numeric value fails the Number cast in `parking.save()` and answers 500; that input is not modelled.
- All frontend pages, components, hooks and the other services are UI or thin request wrappers and are not modelled.

## Findings

| source | as written | input that shows it | evidently intended | confidence | as-written member | corrected member |
|---|---|---|---|---|---|---|
| parking-backend/src/controllers/parkingLot.js:20 | `ParkingLot.findOne` is called, but the file never imports `ParkingLot`; after validation every request throws a ReferenceError and answers 500 | code "P1", name "Main", total_spaces 100, location "Downtown", feePerHour 5.5 | import the lot model, then refuse a duplicate code or insert the lot with `available_spaces = total_spaces` | high (not executed); the file exports nothing, so no route reaches it | `ParkingLots.CreateParkingLotAsWritten` | `ParkingLots.CreateParkingLot` |
| parking-backend/src/controllers/parkingLot.js:26-33 | the new lot sets `total_spaces` and `available_spaces`; the lot schema (parking-backend/src/models/User.js:11-17) declares neither and requires `spaces`, so the save fails validation and answers 500 even with the import added | the same request, with no lot stored | store `total_spaces` as the lot's `spaces` and keep `available_spaces` as its counter | medium (not executed); it rests on strict mode, Mongoose's default | `ParkingLots.CreateFailsOnSchemaAsWritten` | `ParkingLots.CreateParkingLot` |
