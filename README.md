# Locker compartments and order stages of a laundry-pickup backend

This project models, in Dafny, the sequential logic of the washcubes backend. A customer
drops a laundry bag into a compartment of a locker site. An operator verifies and prices the
order. Riders move bags between locker sites and the laundry site. The customer then collects
the cleaned order.

Three pieces of that logic are modelled:

- **Compartment allocation and listing** (`allocation.dfy`, module `Allocation`).
  - `getAvailableCompartment` looks for the first available compartment of the requested size.
    If there is none, it walks the fixed list Medium, Large, Extra Large.
  - `getAvailableCompartments` lists a site's available compartments in array order.
- **The locker-site document** (`locker.dfy`, module `LockerModel`).
  - The four ordered sizes.
  - Compartments, whose availability flag defaults to true.
  - The pre-save hook, which rejects a site in which two compartments share a number.
  - Releasing a compartment and saving the site. The save runs the hook.
- **The order controller** (`orders.dfy`, module `Orders`).
  - Building an order from the order form.
  - Storing it only if its order number is new.
  - Releasing the compartment on cancellation and on collection.
  - The stage-flag updates made by users and operators.
  - The readiness queries and the per-locker counts that riders use.

`common.dfy` (module `Common`) holds `Option`, `Result` and `Outcome`. It also holds
`FirstIndex`, the model of JavaScript's `Array.prototype.find`.

How the model is built:

- A stored document is an object. `LockerSite` and `Order` are classes whose fields the
  request handlers assign, as the controllers assign the fields of a fetched document and
  save it.
- `Order.Data()` gives the whole order as a value. Every stage-changing handler promises
  `Data() == Step(old(Data()), t, now)`. `Step` is the pure transition function, one
  `Transition` per handler. The lemmas about the life cycle are stated about `Step`.
- Each handler also promises what it does when the order or site is missing, and what it
  leaves untouched. The `modifies` clause names only the one document the request names.
- Timestamps (`Date.now()`) are the parameter `now`.
- Order numbers and the database ids of new documents are parameters.
- The catalogue of services is a map from service id to its items.
- Notifications go to `NotificationLog.sent`, a log that only grows.
- Prices are integers in minor units.

No transition in the code checks the order's current stage, and the model does the same. For
example, `cancelOrderCreation` receives only a site and a compartment, so it cannot refuse a
cancellation after drop-off. Approval does not look at `orderError.status`. Rejection leaves
`orderError.status` as it was, so true after an edit; only `userResolveOrderError` clears it, and
`operatorApproveOrderReturn` takes the order on to processing complete with the error still
open (`RejectedEditStillReturned`). The model keeps to the code on all three points. It adds
no guarded variants and no claim operation: allocation never sets `isAvailable` to false.

Facts of the code that the model keeps:

- `confirmOrderCollection` saves the completed order before it looks up the locker site. A
  missing site therefore fails the request (reading `compartments` of `null`) after the
  order is already completed. A missing compartment is a successful no-op.
- Releasing a compartment then calls `locker.save()`. The save runs the duplicate-number
  hook, so a site holding duplicate numbers keeps its compartment occupied and the request
  fails.
- `createOrderObject` skips zero-quantity items before it looks them up. An unknown item with
  quantity 0 is therefore not an error.
- `operatorApproveOrderDetails` stamps `orderStage.dateUpdated`, not
  `orderStage.inProgress.dateUpdated`.
- `operatorEditOrderDetails` stores the posted items as they are. It does not recompute line
  totals.

## Model

| member | source | states |
|---|---|---|
| `Common.FirstIndex` | controllers/lockerController.js:15 | the index found holds an element satisfying the predicate and no earlier one does; None means no element satisfies it |
| `LockerModel.ParseSize` | models/locker.js:12-16 | a string validates as a size exactly when it is the name of one of the four sizes |
| `LockerModel.SizeNameRoundTrip` | models/locker.js:4 | parsing the name of a size gives that size back |
| `LockerModel.Rank` | models/locker.js:4 | a size's rank is its position in the size enumeration |
| `LockerModel.SizeOrder` | models/locker.js:4 | sizes are told apart by name and by rank; Small < Medium < Large < Extra Large |
| `LockerModel.NewCompartment` | models/locker.js:17-20 | a compartment created without a flag is available and keeps its id, number and size |
| `LockerModel.CompartmentIndex` | controllers/orderController.js:134 | the position found holds the compartment with the given id and no earlier one has it; none is found iff no compartment has that id |
| `LockerModel.Released` | controllers/orderController.js:136 | the compartment at the position becomes available, the length is kept, and every other compartment is unchanged |
| `LockerModel.CheckCompartmentNumbers` | models/locker.js:47-59 | the check passes iff no two compartments share a number; on failure it reports the number at the first position that repeats an earlier number, the prefix before which is duplicate-free |
| `LockerModel.ReleaseFrame` | controllers/orderController.js:136 | releasing makes exactly the named compartment available, changes no other compartment and no number, is idempotent, is a no-op on an available compartment, and keeps the duplicate check's verdict |
| `LockerModel.LockerSite.ReleaseAndSave` | controllers/orderController.js:136-137 | the release is stored iff the site's numbers are distinct; otherwise the save is rejected and the compartments stay as they were |
| `Allocation.FindAvailableMeaning` | controllers/lockerController.js:15 | the exact-size search finds the first available compartment of that size, and finds nothing iff there is none |
| `Allocation.FirstFallback` | controllers/lockerController.js:20-23 | whatever the fallback loop finds is available, lies in the site, and has one of the listed sizes |
| `Allocation.Allocation` | controllers/lockerController.js:15-24 | the chosen compartment is available and belongs to the site's compartments |
| `Allocation.GetAvailableCompartment` | controllers/lockerController.js:11-31 | "Locker not found" for a missing site; otherwise the chosen compartment, or "No available compartments" when there is none; it modifies nothing |
| `Allocation.ExactMatchFirst` | controllers/lockerController.js:15 | when an available compartment of the requested size exists, the first such one in array order is chosen |
| `Allocation.FallbackChoice` | controllers/lockerController.js:18-23 | with no exact match: the first available Medium, else the first available Large, else the first available Extra Large, else nothing |
| `Allocation.AllocationNoneIff` | controllers/lockerController.js:26-30 | allocation fails iff neither the requested size nor any fallback size has an available compartment |
| `Allocation.NeverSmallUnlessRequested` | controllers/lockerController.js:19 | a Small compartment is handed out only to a request for "Small" |
| `Allocation.LegacyDowngrade` | controllers/lockerController.js:19 | once the fallback reads `locker.compartments`, a Large or Extra Large request with no exact match and a free Medium gets the Medium, which is smaller than requested |
| `Allocation.LegacyDowngradeExample` | controllers/lockerController.js:19 | a concrete site on which, once the fallback reads `locker.compartments`, a request for "Large" receives a Medium compartment |
| `Allocation.MediumFallsBackToLarge` | controllers/lockerController.js:18-23 | site with Small free, Medium taken, Large free: a Medium request gets the Large compartment |
| `Allocation.AvailableOf` | controllers/lockerController.js:38 | the listing contains exactly the site's available compartments and is no longer than the site |
| `Allocation.AvailableOfAppend` | controllers/lockerController.js:38 | the listing of a concatenation is the concatenation of the listings, so array order is kept |
| `Allocation.AllAvailableListed` | models/locker.js:17-20 | a site whose compartments are all available is listed in full, in order |
| `Allocation.NewCompartmentListed` | models/locker.js:17-20 | a compartment added with the schema default is listed, after the site's other available compartments |
| `Allocation.NewSiteListed` | models/locker.js:17-20 | a site built only from compartments created with the schema default is listed in full, in order |
| `Allocation.AllocatedIsListed` | controllers/lockerController.js:15 | the compartment allocation picks is one the listing shows |
| `Allocation.ReleasedIsListed` | controllers/orderController.js:136 | a released compartment appears in the listing afterwards |
| `Allocation.GetAvailableCompartments` | controllers/lockerController.js:34-48 | nothing for a missing site; otherwise the site's id and name, and exactly the site's available compartments, in array order |
| `Allocation.AllocationAsWritten` | controllers/lockerController.js:15-30 | as written: an exact-size match is returned when there is one, and the call throws a ReferenceError iff there is none |
| `Allocation.AsWrittenNeverFallsBack` | controllers/lockerController.js:21 | as written, every call without an exact match throws; with an exact match the as-written and the intended search agree |
| `Allocation.UndefinedCompartmentsExample` | controllers/lockerController.js:21 | a site with one free Large: a Medium request throws as written, yet the intended search returns the Large |
| `Allocation.UpwardAllocation` | controllers/lockerController.js:17-24 | the next-bigger policy the comment names: whatever it picks is an available compartment of the site |
| `Allocation.LargerSizes` | controllers/lockerController.js:17-19 | the sizes strictly larger than the request, in ascending order |
| `Allocation.FirstFallbackNoneIff` | controllers/lockerController.js:20-23 | the fallback loop finds nothing iff no listed size has an available compartment |
| `Allocation.FirstFallbackPosition` | controllers/lockerController.js:20-23 | the fallback loop stops at or before the first listed size that has an available compartment |
| `Allocation.UpwardNeverSmaller` | controllers/lockerController.js:17-19 | under the next-bigger policy the compartment is available and never smaller than requested |
| `Allocation.UpwardNoneIff` | controllers/lockerController.js:17-30 | under the next-bigger policy allocation fails iff no compartment of the requested size or larger is available |
| `Allocation.UpwardPicksSmallestLarger` | controllers/lockerController.js:17-19 | under the next-bigger policy, with no exact match, the smallest larger size that is free is chosen |
| `Orders.Step` | controllers/orderController.js:147-355 | the field updates of every handler; the error status is raised only by the edit and cleared only by the user's acceptance, and only collection marks the order completed |
| `Orders.NotificationFor` | controllers/orderController.js:284-312 | exactly the edit and processing complete notify, each to the order's user, naming the order number, with status "orderError" or "processingComplete" |
| `Orders.ResolveErrorEffect` | controllers/orderController.js:339-343 | on any order, acceptance closes the error, records the acceptance and resumes processing, leaving the rejection flag, pictures, items, price and verification as they were |
| `Orders.RejectErrorEffect` | controllers/orderController.js:354-355 | on any order, rejection records only the rejection and its time; the error status, acceptance, processing, items and price are kept |
| `Orders.RejectedEditStillReturned` | controllers/orderController.js:321-332 | edit, rejection, then return approval: the order is ready for laundry-site pickup while its error is still open |
| `Orders.StepKeepsIdentity` | controllers/orderController.js:142-359 | no transition changes the order number, user, sites, service, estimate, creation time, `selectedByRider` or the rider-driven sub-stages |
| `Orders.OnlyEditRaisesError` | controllers/orderController.js:278 | the operator's edit is the only transition that sets `orderError.status` |
| `Orders.ProofPicsOnlyGrow` | controllers/orderController.js:281-283 | the edit appends the supplied pictures in order after the old ones; every other transition keeps the list |
| `Orders.EditThenResolve` | controllers/orderController.js:270-343 | edit then accept: error closed, acceptance recorded, verified and processing set, audit copy, new items, price and all pictures kept |
| `Orders.EditThenReject` | controllers/orderController.js:349-355 | edit then reject: the error stays open, the rejection is recorded, acceptance and processing are untouched |
| `Orders.EditTwice` | controllers/orderController.js:270-283 | two edits keep the first edit's items as the audit copy and both picture lists in order |
| `Orders.StepIdempotent` | controllers/orderController.js:142-359 | every transition except the edit gives the same order when repeated |
| `Orders.ApproveSetsPrice` | controllers/orderController.js:254-258 | approval sets the final price to the estimate, sets verified and processing, stamps the stage record and leaves the order error alone |
| `Orders.ApproveReturnCompletes` | controllers/orderController.js:326-328 | approving a return marks the return processed and processing complete, without touching the in-progress record or the error status |
| `Orders.LockerPickupReadiness` | controllers/orderController.js:213-218 | drop-off is the only transition that makes an order ready for locker pickup, it does so for an order neither collected nor selected by a rider, and no transition makes a ready order unready |
| `Orders.LaundrySitePickupReadiness` | controllers/orderController.js:232-237 | processing complete and return approval are the only transitions that make an order ready for laundry-site pickup; no transition undoes readiness |
| `Orders.OperatorListing` | controllers/orderController.js:24-31 | an edited order that is not completed is on the operator's list; a collected order is not |
| `Orders.OrderStore.ConfirmOrder` | controllers/orderController.js:116-122 | a known order number fails with the store unchanged; otherwise the order is added under its new id with `createdAt` set, and order numbers stay unique |
| `Orders.FindItemById` | controllers/orderController.js:97-110 | "Service not found" iff the service is missing; "Item not found" iff no item of the service has the id; otherwise an item of the service with that id |
| `Orders.NonZero` | controllers/orderController.js:74 | the kept items are exactly the requested items with non-zero quantity |
| `Orders.NonZeroAppend` | controllers/orderController.js:73-74 | skipping zero quantities distributes over concatenation, so form order is kept |
| `Orders.CreateOrderObject` | controllers/orderController.js:70-94 | succeeds iff every non-zero item is in the catalogue; then one line per kept item, in order, priced from the catalogue with `cumPrice = price * quantity`; otherwise the error of the first failing lookup |
| `Orders.DraftLinesPriced` | controllers/orderController.js:76-82 | every built line has a non-zero quantity and a line total of unit price times quantity |
| `Orders.CancelOrderCreation` | controllers/orderController.js:131-139 | missing site fails; missing compartment fails with "Compartment not found."; otherwise the named compartment is released when the site saves, and nothing else changes |
| `Orders.ConfirmOrderCollection` | controllers/orderController.js:155-173 | the order is marked completed; then the named compartment is released if present, a missing compartment is a successful no-op, and a missing site fails after the order was saved |
| `Orders.ConfirmOrderDropOff` | controllers/orderController.js:142-152 | sets the drop-off status and time and nothing else; a missing order fails |
| `Orders.OperatorApproveOrderDetails` | controllers/orderController.js:249-262 | the order becomes `Step(ApproveDetails)` of what it was; a missing order fails |
| `Orders.OperatorEditOrderDetails` | controllers/orderController.js:264-297 | the order becomes `Step(EditDetails)` of what it was, the proof pictures appended one by one, and exactly one "orderError" notification to the order's user is logged |
| `Orders.OperatorConfirmProcessingComplete` | controllers/orderController.js:299-319 | sets processing complete and logs one "processingComplete" notification to the order's user |
| `Orders.OperatorApproveOrderReturn` | controllers/orderController.js:321-332 | the order becomes `Step(ApproveReturn)` of what it was; a missing order fails |
| `Orders.UserResolveOrderError` | controllers/orderController.js:334-347 | clears the error status, records acceptance and sets processing, nothing else |
| `Orders.UserRejectOrderError` | controllers/orderController.js:349-359 | records only the rejection (and its time); the error status is untouched |
| `Orders.OrdersReadyForPickup` | controllers/orderController.js:211-221 | exactly the stored orders that are dropped off, not collected by a rider, not selected by a rider and on the given locker site |
| `Orders.LaundrySiteOrdersReadyForPickup` | controllers/orderController.js:230-240 | exactly the stored orders whose processing is complete, not out for delivery, not selected by a rider and due at the given collection site |
| `Orders.OrdersForOperator` | controllers/orderController.js:23-33 | exactly the stored orders in progress, ready for collection or in error, and not completed |
| `Orders.GetNumberOfOrdersReadyForPickup` | controllers/orderController.js:175-191 | one entry per locker site, equal to the number of orders ready for locker pickup there |
| `Orders.GetNumberOfOrdersReadyForDropoff` | controllers/orderController.js:193-209 | one entry per locker site, equal to the number of orders ready to be brought back to it |

## Findings

| source | as written | input that shows it | evidently intended | confidence | as-written member | corrected member |
|---|---|---|---|---|---|---|
| controllers/lockerController.js:21 | the fallback loop searches `compartments`, a name not declared in `getAvailableCompartment`, so reaching the loop throws a ReferenceError | a site with one available Large compartment and a request for "Medium" | search `locker.compartments`, as line 15 does | high; not executed | `Allocation.AllocationAsWritten`, shown by `Allocation.UndefinedCompartmentsExample` | `Allocation.Allocation`, used by `Allocation.GetAvailableCompartment` |
| controllers/lockerController.js:19 | the fallback list is always Medium, Large, Extra Large, whatever size was requested | a site with a free Medium and no free Large, and a request for "Large": once line 21 reads `locker.compartments`, a Medium is returned; as written the same input throws at line 21 | the next bigger sizes only, as the comment on line 17 says | medium; not executed | `Allocation.LegacyDowngrade`, shown by `Allocation.LegacyDowngradeExample` | `Allocation.UpwardAllocation`, proved by `Allocation.UpwardNeverSmaller`, `Allocation.UpwardNoneIff` and `Allocation.UpwardPicksSmallestLarger` |

The first finding's correction is the one the model uses. For the second finding,
`GetAvailableCompartment` keeps the list as written, because it models the code's behaviour.
The next-bigger policy `UpwardAllocation` sits beside it, with its properties proved.

## Left out

- HTTP request and response handling, status codes and console logging: outcomes are `Outcome` and `Result` values. The error messages are kept as data (`AllocErrorMessage`, `SaveErrorMessage`, `FailureMessage`).
- Persistence and the async flow (`find`, `findById`, `findOne`, `save`): stored documents are objects, and the site list and order list are maps keyed by id. The order schema (models/order.js) is not part of this model, so its save validation is not modelled. The one save failure kept is the persistence layer's: `ConfirmOrder` fails with `DuplicateOrderId` when the new document's id is already stored. No controller line produces it. For the same reason the order fields are only those the controller reads or writes.
- The 2dsphere index, the site's location, and the unique index on site names: none of the modelled logic decides anything by them.
- `generateOrderNumber`: it depends on the clock and on `Math.random`. The order number is an input of `CreateOrderObject`.
- Clocks: every time is the parameter `now`.
- `sendNotification`: its source is not shown. Notifications are appended to `NotificationLog.sent`; delivery is not modelled.
- `confirmSelectedPickupOrders` and `confirmSelectedLaundrySitePickupOrders`: they only call the job-creation functions of controllers/jobController.js, which is not part of this model. Setting `selectedByRider` happens there too, so no modelled operation changes it.
- `getLockerCompartment`, `getLockers`, `createOrder`, `displayAllOrders`, `displayUserOrders`: HTTP wrappers or passthrough queries. `createOrder` calls `createOrderObject` and builds an unsaved order document from it. `displayUserOrders` filters on `user.userId` alone.
- Concurrency and atomicity: every operation is one sequential step, and requests do not interleave. One shared-state hazard is therefore not modelled. `operatorEditOrderDetails` assigns the undeclared `proofPicUrlArray` at controllers/orderController.js:266, which makes it a module global in sloppy-mode CommonJS. An edit paused at the `await` on line 267 can then push the pictures of another concurrent edit at lines 281-283.
- `JSON.parse`, `parseFloat` and `parseInt` input decoding, JavaScript's loose `==` on quantities, and floating-point prices: inputs arrive decoded, and prices and quantities are integers. The source stores `parseInt(quantity, 10)` (controllers/orderController.js:80) but prices the raw value (line 81). A posted quantity of 0.5 passes the zero test of line 74, is stored as quantity 0, and has `cumPrice` equal to half the price. For such quantities neither fact that `Orders.DraftLinesPriced` states holds in the source.
- The database's result order: the readiness queries return sets of order ids.
- The ordering of `mapArray`: the per-locker counts are a map from site id to count, without the insertion order of the JavaScript `Map` entries.
- seeds/seedLockers.js, models/rider.js and models/notification.js: a bootstrap script, password hashing, and a schema with no logic.
