# Salon backend: stock, orders, appointments and shifts

This project models the core of a hair-salon backend written for Node.js with
Express and Mongoose. Customers buy products and book appointments, staff
members register for shifts and check in and out of them, and an
administrator manages the inventory.

The model follows the program's structure:

- **Schema modules.** `ProductModel`, `OrderModel`, `AppointmentModel`,
  `ShiftModel` and `UserModel` state what each collection lets a document be
  saved with: required fields, lower bounds, enums, the trimming and
  lower-casing setters, the pre-save hooks that recompute totals, and the
  unique indexes.
- **`Stock`.** The checkout, release and import loops, stated as functions
  on the product collection.
- **`Store`.** The database as a class `Db` holding one map per collection.
  It also holds the imperative loops that save product documents one at a
  time.
- **Controllers.** `CustomerController`, `StaffController` and
  `InventoryController` hold the request handlers, written as methods on
  `Db`. Each handler answers with the stored document, or with the first
  error its chain of guards finds.
- **`Auth`.** The token extraction and role check of the authentication
  middleware.
- **Support modules.** `Common`, `Time` and `Text` hold the shared result
  types, the clock and calendar-day arithmetic, and the JavaScript string
  operations the rest relies on.

Each handler's `ensures` clause gives its whole outcome, including the new
contents of the collections it touches. The properties it relies on are
proved as lemmas about the specification functions. They include:

- stock bookkeeping for checkout, cancellation and import;
- the order and appointment status tables only move forward;
- the unique shift index is kept;
- the guard chains are characterised exactly;
- email normalisation is idempotent and the token extraction round-trips.

## Model

| member | source | states |
|---|---|---|
| Common.RunRaisesRank | src/controllers/inventoryController.js:117-127 | along any sequence of allowed changes in a table where every allowed change raises a rank, the last rank exceeds the first by at least the number of steps |
| Common.RunRanksRise | src/controllers/staffController.js:154-163 | between any two positions of such a sequence the rank rises by at least their distance, so no state occurs twice |
| Time.StartOfDay | src/controllers/staffController.js:200-207 | `setHours(0,0,0,0)` yields a local midnight at or before the instant and less than a day before it |
| Time.StartOfDayUnique | src/controllers/staffController.js:200-207 | that local midnight is the only one within the day before the instant, so two instants share a day exactly when their midnights agree |
| Time.BeforeTodayIsEarlierDay | src/controllers/staffController.js:13-15 | a date is before today's midnight exactly when it lies on an earlier local day; all of today is accepted |
| Time.CutoffMatchesHourDivision | src/controllers/customerController.js:87-94 | the handlers' test "hours until the appointment < 2" equals the integer test on milliseconds |
| Time.CutoffBoundary | src/controllers/customerController.js:87-94 | exactly two hours ahead passes the cutoff and one minute less does not |
| Time.HoursBetween | src/controllers/staffController.js:315-320 | the working hours times 3,600,000 equal the milliseconds between check-in and check-out |
| Text.Trim | src/models/Product.js:4-8 | the trimming setter keeps a slice of the input, drops only white space at either end, and leaves no white space at either end |
| Text.TrimIdempotent | src/models/Product.js:4-8 | trimming a trimmed name changes nothing |
| Text.TrimmedIffFixed | src/models/Product.js:4-8 | a string is its own trim exactly when neither end is white space |
| Text.Split | src/middlewares/auth.js:11-13 | `split(' ')` yields at least one field and no field holds the separator |
| Text.JoinSplit | src/middlewares/auth.js:11-13 | joining the fields of a split gives back the header |
| Text.SplitJoin | src/middlewares/auth.js:11-13 | splitting a join of separator-free fields gives back the fields |
| Text.Lower | src/models/User.js:7-12 | the lower-casing setter keeps the length, leaves no ASCII capital, turns each capital into its small letter and keeps every other character |
| ProductModel.NewProduct | src/models/Product.js:3-41 | a new product is saved exactly when its trimmed name and description are non-empty, price and stock are not below 0 and the category is in the enum; it stores the trimmed name and the given description, price, stock and category, the image defaults to "no-image.jpg" and isActive to true |
| ProductModel.SaveProduct | src/models/Product.js:3-41 | a save succeeds exactly when the schema's constraints hold, and then stores the document unchanged |
| OrderModel.Total | src/models/Order.js:54-57 | the pre-save hook's total of price times quantity is not below 0 when no price or quantity is |
| OrderModel.TotalAppend | src/models/Order.js:54-57 | the recomputed total adds up over concatenated item lists |
| OrderModel.TotalBounds | src/models/Order.js:54-57 | with prices not below 0 and quantities of at least 1, the total is not below 0 and is at least every line's price |
| OrderModel.SaveOrder | src/models/Order.js:3-57 | a save succeeds exactly when every quantity is at least 1 and the payment status is accepted; it stores the order with its total recomputed and nothing else changed |
| OrderModel.NewOrder | src/controllers/customerController.js:284-292 | a created order meets the schema and keeps the given shipping address; a refusal is a schema violation |
| OrderModel.NewOrderIsPending | src/controllers/customerController.js:284-292 | a new order is pending and unpaid whatever the payment method, holds exactly the checked-out lines and their total, and defaults to cash on delivery |
| OrderModel.CustomerCancelPayment | src/controllers/customerController.js:345-349 | the customer's cancellation writes refunded exactly for a paid bank transfer, and cancelled otherwise |
| OrderModel.AdminCancelPayment | src/controllers/inventoryController.js:137 | the administrator's cancellation writes refunded exactly for a bank transfer, paid or not, and cancelled otherwise |
| OrderModel.CancelPathsDisagree | src/controllers/customerController.js:345-349 | the customer's and the administrator's cancellation write different payment statuses exactly for unpaid bank transfers |
| OrderModel.DeclaredEnumRefusesCancellation | src/models/Order.js:44-48 | as declared, the payment enum refuses the status either cancellation path writes |
| OrderModel.AcceptedEnumStoresCancellation | src/models/Order.js:44-48 | with the written values accepted, a stored order cancelled by either path saves as it is |
| AppointmentModel.TotalPrice | src/models/Appointment.js:45-48 | the pre-save hook's sum of service prices is not below 0 when no price is |
| AppointmentModel.TotalPriceAppend | src/models/Appointment.js:45-48 | the recomputed total price adds up over concatenated service lists |
| AppointmentModel.SaveAppointment | src/models/Appointment.js:3-48 | a save succeeds exactly when every service has a name; it stores the appointment with its total price recomputed and nothing else changed |
| AppointmentModel.NewAppointment | src/controllers/customerController.js:20-27 | a booking is created exactly when the staff member, the date and every service name are given; it is pending, has no review, and its total price is the sum of the service prices |
| AppointmentModel.SaveKeepsStatusAndReviewChanges | src/models/Appointment.js:45-48 | saving a stored appointment with only its status or review changed stores exactly that |
| ShiftModel.InsertKeepsSlotsUnique | src/models/Shift.js:29 | inserting a shift whose (staff, date, time slot) key is free keeps the keys unique and takes the key |
| ShiftModel.UpdateKeepsSlotsUnique | src/models/Shift.js:29 | replacing a shift by one with the same key keeps the keys unique |
| UserModel.NormalizeEmailIdempotent | src/models/User.js:7-12 | trimming and lower-casing a stored email again changes nothing |
| UserModel.LowerIdempotent | src/models/User.js:7-12 | lower-casing a lower-cased email again changes nothing |
| UserModel.MatchesEmailPattern | src/models/User.js:11 | an address the pattern accepts has at least six characters and begins and ends with a word character |
| UserModel.EmailFromParts | src/models/User.js:11 | any address of the form words@words.tld, with a two- or three-character top-level label, matches the pattern |
| UserModel.EmailHasOneAt | src/models/User.js:11 | every address the pattern accepts holds exactly one `@` |
| UserModel.NewUser | src/models/User.js:6-42 | a user is created exactly when the normalised email is empty or matches, the password has at least six characters, the full name is given, the phone has ten digits and the role is in the enum; it stores the trimmed, lower-cased email, the given password, full name and phone, the role defaulting to customer, and isActive true |
| UserModel.InsertUser | src/models/User.js:23-28 | an insert succeeds exactly when the user is valid and no stored user has the phone number; it keeps phone numbers unique |
| UserModel.UserDocument.constructor | src/models/User.js:38-39 | a new document has no reset token and no expiry |
| UserModel.UserDocument.GetResetPasswordToken | src/models/User.js:68-82 | returns the random token, stores its SHA-256 digest, and sets the expiry 30 minutes after now |
| Auth.BearerToken | src/middlewares/auth.js:11-13 | a token is found exactly when the header starts with "Bearer" and has a second space-separated field, and the token is that field |
| Auth.Protect | src/middlewares/auth.js:6-18 | the request is answered with 401 exactly when no token is found or the token is empty; otherwise the token found is passed on, non-empty and space-free |
| Auth.ProtectTakesSecondField | src/middlewares/auth.js:11-13 | the token passed on is exactly the header's second space-separated field, whatever fields follow |
| Auth.ProtectAcceptsBearerHeader | src/middlewares/auth.js:11-18 | "Bearer <token>" passes the token on |
| Auth.ProtectRejectsWithoutBearer | src/middlewares/auth.js:11-18 | no header, and every header that does not start with "Bearer", is answered with 401 |
| Auth.ProtectRejectsBareScheme | src/middlewares/auth.js:11-18 | every header without a space, a bare "Bearer" included, is answered with 401 |
| Auth.ProtectRejectsEmptyToken | src/middlewares/auth.js:11-18 | every header whose first space is followed by nothing or by another space, so that the second field is empty, is answered with 401 |
| Auth.ProtectAcceptsLongerScheme | src/middlewares/auth.js:11 | the check is a prefix test, so "Bearerx abc" passes "abc" on |
| Auth.Authorize | src/middlewares/auth.js:36-47 | the caller passes exactly when its role is one of the allowed ones, and gets 403 otherwise |
| Auth.AuthorizeDependsOnSetOnly | src/middlewares/auth.js:36-47 | only the set of allowed roles matters, not their order or repetition |
| Auth.AuthorizeIdempotent | src/middlewares/auth.js:36-47 | listing the allowed roles twice decides the same way |
| Stock.ReserveItem | src/controllers/customerController.js:257-280 | one checkout step answers 404 for a missing product and 400 for too little stock, changing nothing; otherwise it records a line at the current price and lowers that product's stock by the quantity |
| Stock.Reserve | src/controllers/customerController.js:256-281 | the checkout loop keeps the set of products, handles at most one line per item, and handles every item when it does not fail |
| Stock.Requested | src/controllers/customerController.js:354-355 | the release loop reads each saved line's product and quantity, in order |
| Stock.RestockItem | src/controllers/inventoryController.js:131-135 | one `$inc` keeps the set of products and skips a product that no longer exists |
| Stock.Restock | src/controllers/inventoryController.js:131-135 | the release and import loops keep the set of products |
| Stock.RestockAccounting | src/controllers/inventoryController.js:268-272 | restocking adds each product's listed total to its stock and changes nothing else about any product |
| Stock.RestockKeepsProductsValid | src/controllers/inventoryController.js:268-272 | with no negative quantities, restocking lowers no stock and keeps every product saveable |
| Stock.ReserveStockAccounting | src/controllers/customerController.js:256-281 | a checkout that went through lowered each product's stock by exactly the total quantity ordered for it |
| Stock.ReserveLines | src/controllers/customerController.js:267-275 | after a successful checkout, line i is item i's product and quantity at that product's price |
| Stock.ReserveFailsAtFirstBadItem | src/controllers/customerController.js:258-266 | a failed checkout stopped at the first item that failed: the items before it went through, and their decrements stay saved |
| Stock.ReserveKeepsStockNonNegative | src/controllers/customerController.js:264-280 | the checkout never takes a stock below 0 |
| Stock.ReserveLinesRequested | src/controllers/customerController.js:267-271 | the recorded lines are the handled prefix of the requested items |
| Stock.ReserveFailureFinal | src/controllers/customerController.js:258-266 | once the checkout has failed, further items change nothing |
| Stock.ReserveSucceedsIffFits | src/controllers/customerController.js:256-281 | with stocks and quantities not below 0, the checkout goes through exactly when every product exists and each product's total requested quantity is within its stock |
| Stock.ReserveThenRestockRestores | src/controllers/customerController.js:353-360 | releasing the lines of a successful checkout restores every product exactly |
| Stock.NegativeImportDrivesStockBelowZero | src/controllers/inventoryController.js:268-272 | an import listing −5 takes a stock of 3 to −2, which the schema would refuse |
| Stock.RepeatedProductSeesReducedStock | src/controllers/customerController.js:258-280 | a product listed twice is checked against the stock left after the first line, so two lines of 2 against a stock of 3 fail on the second line after the first decrement was saved |
| Stock.NegativeQuantityRaisesStock | src/controllers/customerController.js:264-280 | the stock check lets a negative quantity through, and the decrement then raises the stock |
| Store.InsertOrder | src/controllers/customerController.js:284-292 | the created order is stored under a fresh id and the store stays valid |
| Store.Checkout | src/controllers/customerController.js:253-281 | the loop leaves exactly the products, lines and error of the checkout function, its running total equals the lines' total, and every product stays saveable |
| Store.AddStock | src/controllers/customerController.js:353-360 | the loop leaves exactly the restocked products and every product stays saveable |
| CustomerController.CreateOrder | src/controllers/customerController.js:240-298 | an empty item list and a missing address are refused before anything changes; otherwise the stock is exactly what the checkout left, including on failure, and an order is stored only when the checkout and the save both succeed |
| CustomerController.CancelOrderRefusal | src/controllers/customerController.js:326-339 | 404, then 403, then 400 for a delivered or cancelled order; none exactly for the caller's own open order |
| CustomerController.CancelOrder | src/controllers/customerController.js:319-366 | the order becomes cancelled with the customer's payment rule, and every line's quantity is added back to its product if that product still exists |
| CustomerController.CreateAppointment | src/controllers/customerController.js:10-33 | a date before now is refused; otherwise the booking is created as the schema allows, under a fresh id |
| CustomerController.ChangeRefusal | src/controllers/customerController.js:72-94 | 404, then 403, then 400 for a closed appointment, then 400 within two hours; none exactly for the caller's own open appointment two or more hours ahead |
| CustomerController.ChangeNeedsTwoHoursNotice | src/controllers/customerController.js:87-94 | an appointment that passes the guards is at least two hours away |
| CustomerController.CancelAppointment | src/controllers/customerController.js:64-104 | after the guards, only the status changes, to cancelled |
| CustomerController.Edit | src/controllers/customerController.js:147-150 | the edit keeps the status, customer, staff member and review; the date and services are replaced when given, and the note only when it is a non-empty string |
| CustomerController.EditIdempotent | src/controllers/customerController.js:147-150 | applying the same edit twice changes nothing more, and an edit with no fields changes nothing |
| CustomerController.UpdateAppointment | src/controllers/customerController.js:109-159 | after the guards, a new date before now is refused; otherwise the edit is saved with its total recomputed and the status kept |
| CustomerController.ReviewRefusal | src/controllers/customerController.js:169-190 | a rating outside 1..5 is refused first, then 404, then 403, then 400 unless completed |
| CustomerController.ReviewAndChangeExclude | src/controllers/customerController.js:188-190 | no appointment can be reviewed and still be changed or cancelled |
| CustomerController.ReviewAppointment | src/controllers/customerController.js:164-205 | after the guards, only the review changes, to the rating and comment stamped with now |
| StaffController.RegisterShift | src/controllers/staffController.js:8-32 | a date before today is refused, a missing date or time slot fails the save, and a taken (staff, date, slot) key gives 400; otherwise the shift is stored as available under a fresh id and takes its key |
| StaffController.AppointmentNext | src/controllers/staffController.js:154-159 | no status leads back to pending, confirmed is reached only from pending and completed only from confirmed |
| StaffController.AppointmentTableMovesForward | src/controllers/staffController.js:154-161 | no status leads to itself, every allowed change moves forward, exactly completed and cancelled accept nothing, and every open status may be cancelled |
| StaffController.AppointmentRunsAreShort | src/controllers/staffController.js:154-161 | any sequence of allowed changes has at most three statuses and repeats none |
| StaffController.StatusRefusal | src/controllers/staffController.js:144-163 | someone else's appointment reads as 404; then a status the table does not allow gives 400 |
| StaffController.UpdateAppointmentStatus | src/controllers/staffController.js:139-172 | after the guards, only the appointment's status changes |
| StaffController.CheckInRefusal | src/controllers/staffController.js:186-209 | 404, then 403, then 400 if already checked in, then 400 unless the shift is today; none exactly in the remaining case |
| StaffController.CheckInShift | src/controllers/staffController.js:177-223 | after the guards, only the check-in changes, to now at the given location or `{}` |
| StaffController.CheckOutRefusal | src/controllers/staffController.js:237-265 | 404, then 403, then 400 without a check-in, then 400 if already checked out, then 400 unless the shift is today |
| StaffController.CheckOutShift | src/controllers/staffController.js:228-282 | after the guards, the check-out is recorded at now, the shift becomes completed, and the check-in stays |
| StaffController.ShiftAttendance | src/controllers/staffController.js:287-327 | the report is given exactly to the owner or an administrator; it carries the shift's id, date, time slot, status and both attendance records; it has working hours exactly when both times are recorded, and they are then the hours between them |
| StaffController.WorkingHoursWithinADay | src/controllers/staffController.js:315-320 | two instants on the shift's own day are less than 24 hours apart |
| StaffController.ReportAfterCheckOut | src/controllers/staffController.js:315-320 | after a check-in at t1 and a check-out at t2 ≥ t1, the report shows t2 − t1 in hours, which is not negative |
| InventoryController.ApplyPatch | src/controllers/inventoryController.js:40-44 | the update keeps the category and isActive and leaves a trimmed name; its partner lemmas below state idempotence, the empty update and the falsy values |
| InventoryController.PatchIdempotent | src/controllers/inventoryController.js:40-44 | sending the same update twice leaves the product as the first one did |
| InventoryController.EmptyPatchKeepsProduct | src/controllers/inventoryController.js:40-44 | an update with no fields leaves a stored product unchanged |
| InventoryController.FalsyValuesKeepAllButStock | src/controllers/inventoryController.js:40-44 | falsy values keep the old name, description, price and image, but a stock of 0 is written |
| InventoryController.PatchSaveSucceedsIff | src/controllers/inventoryController.js:40-46 | the save after an update fails exactly when a given name trims to nothing, a given non-zero price is negative or a given stock is negative |
| InventoryController.UpdateProduct | src/controllers/inventoryController.js:31-52 | 404 for a missing product; otherwise the patched product is stored if the schema accepts it, and nothing changes if not |
| InventoryController.DeleteProduct | src/controllers/inventoryController.js:57-70 | 404 for a missing product; otherwise exactly that product is removed |
| InventoryController.OrderNext | src/controllers/inventoryController.js:117-123 | no status leads back to pending, and confirmed, shipped and delivered can each be reached only from the status just before it |
| InventoryController.OrderTableMovesForward | src/controllers/inventoryController.js:117-123 | no status leads to itself, every allowed change moves forward, exactly delivered and cancelled accept nothing, and every other status may be cancelled |
| InventoryController.OrderRunsAreShort | src/controllers/inventoryController.js:117-127 | any sequence of allowed changes has at most four statuses and repeats none, so it cancels an order at most once |
| InventoryController.OrderStatusRefusal | src/controllers/inventoryController.js:110-127 | 404 for a missing order, then 400 unless the table allows the requested status |
| InventoryController.AdminUpdate | src/controllers/inventoryController.js:129-141 | the status becomes the requested one; items, customer, total, shipping address and payment method are kept; a cancellation sets the payment status to refunded for bank transfers and cancelled otherwise, and any other change keeps it |
| InventoryController.UpdateOrderStatus | src/controllers/inventoryController.js:107-147 | after the guards, a cancellation adds every line's quantity back to its product; any other change touches no stock; the order is stored with its new status |
| InventoryController.CancelledOrderAcceptsNothing | src/controllers/inventoryController.js:117-127 | once cancelled, every further status change is refused |
| InventoryController.CancellableAlike | src/controllers/customerController.js:326-339 | a customer may cancel their own order exactly when the administrator's table lets it move to cancelled, which is exactly for pending, confirmed and shipped orders |
| InventoryController.CancelAsWritten | src/controllers/inventoryController.js:129-141 | the as-written cancellation always releases the order's stock |
| InventoryController.CancelAsWrittenReleasesTwice | src/controllers/inventoryController.js:129-141 | as written, the save fails, the order stays cancellable, and a second request adds the quantities again, twice in total |
| InventoryController.AddImportOrder | src/controllers/inventoryController.js:258-278 | a missing supplier or a quantity below 1 is refused before anything changes; otherwise the import order is stored under a fresh id and exactly the listed quantities are added |
| InventoryController.ImportOnlyRaisesStock | src/controllers/inventoryController.js:268-272 | an accepted import adds each product's listed total and lowers no stock, so every product stays saveable |

## Left out

- Password hashing, JWT signing and verification, and the user lookup after verification are not modelled. Their outcome is the cryptographic libraries'. `Auth.Protect` stops where signature verification starts. The pre-save password hook of the User schema and the login and registration handlers of the authentication controller are left out for the same reason.
- Random bytes and the SHA-256 digest are not modelled. `GetResetPasswordToken` takes them as parameters, and the clock is a parameter everywhere.
- The read-only handlers are not modelled: product, order, appointment, shift and import-order listings, customer history and the statistics endpoint. They filter and aggregate without changing anything.
- Mongoose internals are not modelled. A save is modelled as: recompute the totals, then check the declared constraints. Left out with it:
  - whether validation runs before the pre-save hooks (the Appointment schema requires a `totalPrice` that only the hook sets);
  - strict mode dropping paths the schemas do not declare (`review` on Appointment, `checkIn` and `checkOut` on Shift), which the model stores;
  - the duplicate-key error code, modelled as the `DuplicateShift` outcome.
- Concurrency between requests is not modelled. Each handler runs to completion on its own, so interleaved checkouts are outside the model.
- JavaScript numbers are modelled as integers. Prices, quantities and instants are whole numbers, and fractional or non-numeric request values are outside the model. The attendance report's working hours are exact rationals, and the `toFixed(2)` formatting is left out.
- Local time is modelled as a fixed UTC offset. Days under a daylight-saving change are not modelled.
- Request bodies are modelled as typed values. A missing field is `None`, a missing list is the empty list, and an enum value outside the enum is `Unknown`. Wrong JSON types and cast errors are not modelled.
- `Stock.ImportOrder` keeps only the supplier and the items. The Supplier collection and the existence of the referenced supplier and products are not checked, as in the program.
- The error message texts are not modelled; each outcome is its status code and reason.
- InventoryController.AddImportOrder: refuses a quantity below 1, which the program does not. See the second finding below; `Stock.NegativeImportDrivesStockBelowZero` models the program as written.
- OrderModel.SaveOrder: accepts the two payment statuses the cancellation handlers write, which the declared enum refuses. See the first finding below; `OrderModel.DeclaredEnumRefusesCancellation` and `InventoryController.CancelAsWritten` model the program as written.
- CustomerController.CancelOrder: stores the cancelled order through the corrected save. As written, its save fails on the payment enum and the request is answered with 500, with no stock released.
- InventoryController.UpdateOrderStatus: stores a cancelled order through the corrected save. As written, a cancellation releases the stock and then is answered with 500 because the save fails; `InventoryController.CancelAsWritten` models that path.
- Text.Lower: lower-cases only the ASCII capitals A to Z. JavaScript's `toLowerCase` maps every cased Unicode letter, for example the Kelvin sign U+212A to "k", so an email the program lower-cases into a match can be refused by the model.
- UserModel.NewUser: counts the password's length in characters (code points), while the schema's `minlength` counts UTF-16 code units, so a password of three characters outside the Basic Multilingual Plane passes in the program and is refused by the model. Email normalisation inherits the ASCII-only lower-casing of `Text.Lower`.

## Findings

| source | as written | input that shows it | evidently intended | confidence | as-written member | corrected member |
|---|---|---|---|---|---|---|
| src/models/Order.js:44-48 | the payment enum is {pending, paid, failed}, but both cancellation paths write `refunded` or `cancelled` (src/controllers/customerController.js:345-349, src/controllers/inventoryController.js:137), so the save fails; the administrator's path has already released the stock, and the order stays open, so the release can be repeated | an administrator cancels a pending cash-on-delivery order twice | the enum accepts the two values the handlers write, so a cancellation is stored once and the table then refuses further changes | not executed | InventoryController.CancelAsWrittenReleasesTwice | OrderModel.AcceptedEnumStoresCancellation |
| src/controllers/inventoryController.js:268-272 | the import loop applies `$inc` with whatever quantity was listed; the import-order schema sets no lower bound and the increment skips the product schema's `min: 0` | an import listing quantity −5 for a product with stock 3 | quantities below 1 are refused, so an import never lowers a stock | not executed | Stock.NegativeImportDrivesStockBelowZero | InventoryController.ImportOnlyRaisesStock |
