# College event ticketing — a Dafny model

This project models the server of a college event-ticketing system and three of its admin pages. The system is an Express and Mongoose backend with a React frontend.

- **Students** register with a one-time code mailed to their college address, log in by roll number, and buy tickets through a payment gateway.
- **Organisers** ("admins") sign up with a proof document, are approved by a super admin, publish events and scan tickets at the gate.
- **Super admins** approve, reject or revoke organisers and see revenue per event.

## What is modelled

- **The store.** The Mongo collections are the fields of one object, `Database.Db`.
  - Users, payments and registrations are sequences indexed by their id. They are never deleted, and `findOne` is the first match in store order.
  - Events carry their id, because they can be deleted.
  - One-time codes are a sequence that `deleteMany` filters.
  - `Db.Valid()` holds several invariants, and every handler preserves them:
    - the unique email and roll-number indexes hold, and every stored user passes validation;
    - event ids are distinct and fresh;
    - a payment has a gateway id exactly when it is paid;
    - a registration refers to a paid payment of the same user and event exactly when it is past `registered`;
    - a registration has a check-in time exactly when it is checked in;
    - a stored ticket names its own registration;
    - no (user, event) pair has two registrations;
    - no registration is still `registered`: the one route that writes a registration creates it `paid`, so none of these handlers ever stores an unpaid row.
- **Handlers** are methods on the store. Each handler's guards are a pure function (`OrderCheck`, `VerifyCheck`, `ScanCheck`, `RegisterCheck`, `OtpCheck`, `UpdateCheck`, `DeleteCheck`, …) that states each error status and message, and exactly when the request goes through. The method states the whole new state in terms of the old one.
- **Mongoose document behaviour** is modelled where the handlers depend on it:
  - setters normalise email (lower case, trimmed) and roll number (upper case, trimmed);
  - validators run on save, before the pre-save hook that hashes a modified password;
  - enum checks reject unknown statuses.
- **Tokens.** `jsonwebtoken` is idealised: a token verifies only under the key it was signed with, and only before its expiry second.
- **The three admin pages.** The model covers their search filters, counters and CSV builders as list functions. The one imperative loop (the statistics `forEach`) is a method with loop invariants.

What the model shows about the code as written:

- **Verify does not promote an existing registration.** It reuses the pair's first row in any status and only replaces its ticket. The routes themselves never store a `registered` row, so on their own data this is harmless: no ticket is refused as unpaid (`Scenarios.GateNeverSeesUnpaid`). A `registered` row written outside these routes, though, stays unpaid after verify. Its holder is turned away at the gate with "Payment not completed", yet can create new orders for ever (`Scenarios.UnpaidRowLocksOut`).
- **The stored gateway order id is never compared.** A valid signature for any order confirms any unpaid payment (`PaymentRoutes.SignatureConfirmsAnyPayment`).
- **Revoking an organiser always fails.** Revoke writes the verification status `revoked`, which the schema's enum does not admit. The save fails, the route always answers 500, and the organiser keeps the role (`SuperAdminRoutes.RevokeAdmin`, `SuperAdminRoutes.RevokedNeverAdmitted`).
- **Deleting an event strands its tickets and orders.** Deleting an event leaves its payments and registrations in place. A later verify or scan that refers to the deleted event answers 500 and writes nothing. `populate` leaves the missing event as null, and the schemas require `event`, so the save fails validation.
- **A failed email after the saves answers 500.** The payment, the registration or the check-in is already written.
- **Two routes check only the role.** Creating an event, and scanning tickets, require role `admin` only. An organiser not yet approved can do both. The scan also ignores which event the organiser selected.
- **The registrations CSV breaks on commas.** It has no quoting, and it prints the check-in time with `toLocaleString`, which contains a comma in many locales. Those lines then split into extra cells (`ViewRegistrations.CommaInDateBreaksLine`).

The JavaScript specifics are explicit:

- `x || default` on absent or empty values;
- `Array.prototype.join` printing a missing value as "";
- `includes` as substring search;
- `jsonwebtoken` counting expiry in whole seconds;
- the OTP code `Math.floor(100000 + Math.random() * 900000).toString()`.

## Model

| member | source | states |
|---|---|---|
| PaymentRoutes.OrderCheck | backend/routes/paymentRoutes.js:26-57 | 404 for an unknown event; 400 "Registrations are closed" exactly when now is after the deadline (a request at the deadline instant passes); 400 when the pair already has a paid or checked-in row (a `registered` row does not block); passes exactly otherwise |
| PaymentRoutes.CreateOrder | backend/routes/paymentRoutes.js:18-97 | a rejected request adds no payment; otherwise one `created` payment with amount = price, admin = event creator and the gateway order id is appended and its id returned; a failed gateway call or missing creator answers 500 with nothing added; store invariants kept |
| PaymentRoutes.LedgerAfterNewPayment | backend/routes/paymentRoutes.js:71-78 | appending an unverified payment keeps every registration consistent with the ledger |
| PaymentRoutes.VerifyCheck | backend/routes/paymentRoutes.js:114-147 | 400 on a missing field, 404 on an unknown payment, 400 "Payment already verified" on a paid one, 400 on a signature different from the HMAC of `order_id|payment_id`; passes exactly otherwise |
| PaymentRoutes.SignatureConfirmsAnyPayment | backend/routes/paymentRoutes.js:138-147 | a valid gateway signature passes verification for every unpaid payment, whatever order it was created for |
| PaymentRoutes.MarkPaid | backend/routes/paymentRoutes.js:149-152 | the payment becomes `paid` with the gateway payment id; user, event, admin, amount and order id unchanged |
| PaymentRoutes.TicketFor | backend/routes/paymentRoutes.js:169-174 | the ticket carries only the registration id, is signed with the ticket key and verifies at issue time |
| PaymentRoutes.Confirm | backend/routes/paymentRoutes.js:154-177 | an existing row of the pair keeps status and payment reference and only gets a new ticket, every other row unchanged; otherwise exactly one `paid` row referring to the payment is appended |
| PaymentRoutes.ConfirmKeepsOnePerPair | backend/routes/paymentRoutes.js:154-167 | confirming never gives a pair a second registration |
| PaymentRoutes.ConfirmKeepsNoUnpaidRows | backend/routes/paymentRoutes.js:154-167 | confirming writes no row that is still `registered`: a reused row keeps its status, a new one is `paid` |
| PaymentRoutes.ConfirmKeepsLedger | backend/routes/paymentRoutes.js:149-177 | marking the payment paid and confirming keeps the ledger invariants |
| PaymentRoutes.LedgerAfterMarkPaid | backend/routes/paymentRoutes.js:149-152 | marking an unpaid payment paid keeps the ledger invariants on its own, so the store is consistent between the payment's save and the registration write |
| PaymentRoutes.VerifyPayment | backend/routes/paymentRoutes.js:104-214 | a rejected request changes nothing; a payment whose user or event no longer resolves gets 500 with nothing written (its save fails validation); otherwise the payment is paid and the registration confirmed, and the reply is 500 only when the email fails (everything saved) |
| EntryRoutes.TicketTarget | backend/routes/entryRoutes.js:24-34 | a registration id exactly when the token verifies under the ticket key as an entry ticket |
| EntryRoutes.ScanCheck | backend/routes/entryRoutes.js:14-48 | 403 for any role but `admin` before the token is read; 400 for a missing or invalid or expired token; 404 "Invalid ticket"; "Ticket already used" tested before "Payment not completed"; passes exactly for a paid registration |
| EntryRoutes.CheckIn | backend/routes/entryRoutes.js:50-51 | status `checked_in` and check-in time now; user, event, payment, ticket and creation time kept |
| EntryRoutes.Scan | backend/routes/entryRoutes.js:12-75 | a rejected scan changes nothing; a registration whose user or event no longer resolves gets 500 with nothing written (its save fails validation); otherwise only that registration is checked in, and the reply is 500 when the email fails, else the student's name and phone and the event title |
| EntryRoutes.NoSecondEntry | backend/routes/entryRoutes.js:42-52 | after a successful scan the same, still valid, ticket is refused as "Ticket already used" |
| Scenarios.TicketAdmitsOnce | backend/routes/entryRoutes.js:42-52 | a first purchase's ticket passes the scan and is refused as used at a second scan |
| Scenarios.SecondVerifyRejected | backend/routes/paymentRoutes.js:133-135 | verifying a payment a second time answers 400 "Payment already verified" |
| Scenarios.GateNeverSeesUnpaid | backend/routes/entryRoutes.js:46-48 | on a store without `registered` rows (every store the routes write) no ticket is refused as "Payment not completed" |
| Scenarios.UnpaidRowLocksOut | backend/routes/paymentRoutes.js:155-167 | a `registered` row written outside the routes stays `registered` after verify, its ticket is refused as "Payment not completed", and create-order answers as before |
| EventRegistrationModel.RegStatusRoundTrip | backend/models/EventRegistration.js:23-27 | every status is stored under its enum name and read back as itself |
| EventRegistrationModel.NewRegistration | backend/models/EventRegistration.js:5-37 | a new registration is `registered` with no payment, ticket or check-in time |
| PaymentModel.NewPayment | backend/models/Payment.js:5-42 | a new payment is `created` with no gateway payment id and the given user, event, admin, amount and order id |
| UserModel.RevokedIsNotAdmitted | backend/models/User.js:63-67 | "revoked" is outside the verification-status enum |
| UserModel.NormalizeEmailIdempotent | backend/models/User.js:13-19 | the email setters applied twice equal applied once |
| UserModel.DefaultVerification | backend/models/User.js:53-81 | verification status defaults to `pending`, no approval stamps |
| UserModel.NewUser | backend/models/User.js:7-50 | setters applied to email, roll number, name and phone; role `student`; not verified |
| UserModel.UserDocument.Create | backend/models/User.js:92-97 | a new document counts its password as modified |
| UserModel.UserDocument.Load | backend/models/User.js:92-97 | a loaded document has no modified password |
| UserModel.UserDocument.PreSave | backend/models/User.js:92-97 | the password is replaced by its hash exactly when it was modified |
| UserModel.UserDocument.Save | backend/models/User.js:34-38 | a save succeeds exactly when validation admits the document, and only then is the hook run |
| Database.UsersValidAppend | backend/models/User.js:13-27 | inserting a valid user that clashes with no unique index keeps the user store valid |
| Database.CreateUser | backend/routes/authRoutes.js:80-88 | `User.create` succeeds exactly when validation passes and email and roll number are free; the stored password is hashed |
| Database.SaveUser | backend/routes/superAdminRoutes.js:109-114 | saving a changed user writes it exactly when validation admits it, and changes nothing else |
| Tokens.SignVerify | backend/routes/paymentRoutes.js:170-174 | a signed token verifies with its claims exactly until its lifetime in seconds has passed |
| Tokens.WrongKeyRejected | backend/routes/entryRoutes.js:26-30 | no token verifies under another key |
| AuthRoutes.OtpCode | backend/routes/authRoutes.js:39 | the code is six digits and reads as 100000 + draw |
| AuthRoutes.RegisterCheck | backend/routes/authRoutes.js:19-37 | 400 for a missing field, for an email that does not end with the college domain after lower-casing and trimming, for a taken email or roll number; passes exactly otherwise |
| AuthRoutes.RegisterQuery | backend/routes/authRoutes.js:31-33 | the duplicate query finds nothing exactly when the email and the roll number are both free |
| AuthRoutes.Register | backend/routes/authRoutes.js:15-59 | a rejected request stores no code; otherwise one code for the email expiring in five minutes is added, earlier codes kept; a failed email answers 500 with the code kept |
| AuthRoutes.OtpsWithout | backend/routes/authRoutes.js:90 | no code of the email is left |
| AuthRoutes.OtpsWithoutMember | backend/routes/authRoutes.js:90 | a code stays exactly when it belongs to another email |
| AuthRoutes.DeleteOtps | backend/routes/authRoutes.js:90 | every code of the email is removed, every other code and the rest of the store kept |
| AuthRoutes.OtpCheck | backend/routes/authRoutes.js:66-78 | 500 when the email is absent; 400 "Invalid OTP" without a matching record; 400 "OTP expired" exactly when expiry is before now (a code at its expiry instant passes) |
| AuthRoutes.NewStudent | backend/routes/authRoutes.js:80-88 | the account is a verified `student` |
| AuthRoutes.VerifyOtp | backend/routes/authRoutes.js:64-100 | a rejected request changes nothing; otherwise the student is created and every code of the email deleted, or 500 with nothing changed |
| AuthRoutes.Login | backend/routes/authRoutes.js:105-162 | 400, 401 unknown roll number, 403 unverified (admin-specific message) before the password, 401 wrong password; on success a token naming id and role that verifies and expires seven days later |
| AuthRoutes.AdminSignupCheck | backend/routes/authRoutes.js:181-196 | 400 without the fields or a document; passes exactly when email and roll number are free; no domain check |
| AuthRoutes.NewApplicant | backend/routes/authRoutes.js:198-211 | role `admin`, not verified, status `pending`, with the document and the submission time |
| AuthRoutes.AdminSignup | backend/routes/authRoutes.js:167-224 | a rejected request changes nothing; otherwise the applicant is created unless validation fails (500) |
| Middleware.AdminVerified | backend/middleware/adminVerified.js:1-11 | 403 "Admin verification pending" exactly for an unverified organiser; every other caller goes on |
| Middleware.SuperAdminOnly | backend/middleware/superAdminOnly.js:1-7 | goes on exactly for an authenticated super admin, else 403 "SuperAdmin access only" |
| SuperAdminRoutes.AdminTargetCheck | backend/routes/superAdminRoutes.js:103-107 | 403 for anyone but a super admin; 404 for a missing user or one whose role is not `admin`; passes exactly otherwise |
| SuperAdminRoutes.Approved | backend/routes/superAdminRoutes.js:109-112 | status `approved`, verified, stamped with time and approver; role kept |
| SuperAdminRoutes.ApprovedAdmitted | backend/routes/superAdminRoutes.js:109-114 | approval passes validation from any previous status |
| SuperAdminRoutes.ApproveAdmin | backend/routes/superAdminRoutes.js:97-136 | a rejected request changes nothing; otherwise the approved record is saved and the reply is 500 only if the email fails |
| SuperAdminRoutes.ReasonOrDefault | backend/routes/superAdminRoutes.js:154-155 | the given reason, or "Verification failed" when it is absent or empty |
| SuperAdminRoutes.Rejected | backend/routes/superAdminRoutes.js:153-158 | status `rejected`, unverified, reason recorded, approval stamps cleared; role kept |
| SuperAdminRoutes.RejectAdmin | backend/routes/superAdminRoutes.js:141-183 | a rejected request changes nothing; otherwise the rejected record is saved and the reply is 500 only if the email fails |
| SuperAdminRoutes.Revoked | backend/routes/superAdminRoutes.js:251-255 | role `student`, unverified, status "revoked", stamps cleared |
| SuperAdminRoutes.RevokedNeverAdmitted | backend/routes/superAdminRoutes.js:251-257 | the revoked record never passes validation |
| SuperAdminRoutes.RevokeAdmin | backend/routes/superAdminRoutes.js:237-268 | no user ever changes; an organiser target always gets 500 "Failed to revoke admin" |
| SuperAdminRoutes.PendingAdmins | backend/routes/superAdminRoutes.js:78-80 | only organisers whose status is `pending` |
| SuperAdminRoutes.PendingAdminsExactly | backend/routes/superAdminRoutes.js:78-80 | a user is listed as pending exactly when it is an organiser with status `pending` |
| SuperAdminRoutes.VerifiedAdmins | backend/routes/superAdminRoutes.js:218-221 | only verified organisers |
| SuperAdminRoutes.VerifiedAdminsExactly | backend/routes/superAdminRoutes.js:218-221 | a user is listed exactly when it is a verified organiser |
| SuperAdminRoutes.RevenueCountsPaidRows | backend/routes/superAdminRoutes.js:31-38 | with a consistent ledger the revenue of an event is the sum over its paid and checked-in rows alone |
| SuperAdminRoutes.RevenueNonNegative | backend/routes/superAdminRoutes.js:35-38 | non-negative amounts give a non-negative revenue |
| SuperAdminRoutes.Summary | backend/routes/superAdminRoutes.js:29-53 | an event's count is all its registrations in any status, its revenue the sum of payment amounts (0 without payment), the club "—" when missing |
| SuperAdminRoutes.GetDashboard | backend/routes/superAdminRoutes.js:14-67 | the pending count, and the stored events by date ascending, each exactly once (the line ids are a permutation of the event ids), each line the summary of a stored event with its count and revenue |
| SuperAdminRoutes.EventRegistrations | backend/routes/superAdminRoutes.js:188-207 | every registration of the event for a super admin, else 403 |
| EventController.GetMyEvents | backend/controllers/eventController.js:6-21 | 403 for a missing or non-admin caller; otherwise exactly the caller's events, newest first |
| EventController.MyEventsExactly | backend/controllers/eventController.js:12-14 | an event is listed exactly when it is stored and created by the caller |
| EventController.GetEventById | backend/controllers/eventController.js:26-41 | 404 exactly when no event has the id, else that event |
| EventController.ApplyPatch | backend/controllers/eventController.js:62 | every field present in the body overwrites the event's, creator included; absent fields, id and creation time kept |
| EventController.EmptyPatchIsIdentity | backend/controllers/eventController.js:62 | an empty body changes nothing |
| EventController.UpdateCheck | backend/controllers/eventController.js:48-60 | 403 non-admin, 404 unknown, 403 "Not your event", in that order; passes exactly for the owner |
| EventController.UpdateEvent | backend/controllers/eventController.js:46-74 | a rejected request changes nothing; otherwise the patched event replaces the stored one if it passes validation, else 500 with nothing changed |
| EventRoutes.CreateCheck | backend/routes/eventRoutes.js:29-50 | 403 non-admin; 400 "Missing required fields" without title, description, venue, date or deadline; then 400 "Upload at least one image" without an image; passes exactly otherwise |
| EventRoutes.ImageUrls | backend/routes/eventRoutes.js:52-54 | one URL per uploaded file, base + "/" + path |
| EventRoutes.PriceOrZero | backend/routes/eventRoutes.js:62 | an absent price is 0 |
| EventRoutes.NewEvent | backend/routes/eventRoutes.js:56-65 | the request's fields, price defaulting to 0, creator the caller, status `active` |
| EventRoutes.NewEventAdmitted | backend/routes/eventRoutes.js:56-65 | an event that passed the guards passes the schema validators |
| EventRoutes.CreateEvent | backend/routes/eventRoutes.js:23-77 | a rejected request changes nothing; otherwise exactly one event with a fresh id is added and returned with 201 |
| EventRoutes.ListEvents | backend/routes/eventRoutes.js:82-93 | every event, sorted by date ascending |
| EventRoutes.ListRegistrations | backend/routes/eventRoutes.js:108-128 | 403 exactly for a non-admin; any admin gets every registration of the event, newest first, with count = number of rows |
| EventRoutes.DeleteCheck | backend/routes/eventRoutes.js:131-142 | 403 non-admin, 404 unknown, 403 "Not your event"; passes exactly for the owner |
| EventRoutes.DeleteEvent | backend/routes/eventRoutes.js:129-150 | on success only that event is removed; registrations and payments untouched |
| RegistrationController.GetMyRegistrations | backend/controllers/registrationController.js:3-16 | only the caller's paid or checked-in rows, newest first, all of them |
| RegistrationController.MyRegistrationsExactly | backend/controllers/registrationController.js:5-8 | a row is listed exactly when it is the caller's and paid or checked in |
| RegistrationController.GetRegistrationStatus | backend/controllers/registrationController.js:18-42 | not registered exactly when the caller has no paid or checked-in row for the event; otherwise that row's status |
| RegistrationController.UnpaidRowsReadAsNotRegistered | backend/controllers/registrationController.js:22-30 | a caller whose every row for the event is `registered` reads as not registered |
| Report.CsvRoundTrip | frontend/src/pages/ViewRegistrations.jsx:74-75 | with clean cells the CSV splits back into the header and one line per row, each splitting into its cells |
| Report.EmptyCsvHasTwoLines | frontend/src/pages/ViewRegistrations.jsx:74-75 | with no rows the CSV is the header line and an empty line |
| Report.CommaBreaksRow | frontend/src/pages/admin/ViewEventStats.jsx:99-102 | a cell containing "," does not read back |
| ViewEventStats.FilteredRegistrations | frontend/src/pages/admin/ViewEventStats.jsx:37-48 | an empty search returns the list unchanged |
| ViewEventStats.SearchExactly | frontend/src/pages/admin/ViewEventStats.jsx:40-47 | a non-empty search keeps exactly the rows whose name, roll number or email contain it ignoring case, or whose phone contains it as typed |
| ViewEventStats.ComputeStats | frontend/src/pages/admin/ViewEventStats.jsx:53-78 | total = rows, checked-in and paid counts, not-checked-in = total − checked-in, revenue = sum over purchases with a truthy amount |
| ViewEventStats.NotCheckedInCountsTheRest | frontend/src/pages/admin/ViewEventStats.jsx:71-77 | not-checked-in counts the rows in any other status, so checked-in + not-checked-in = total |
| ViewEventStats.PaidWithinNotCheckedIn | frontend/src/pages/admin/ViewEventStats.jsx:59-61 | paid-not-checked-in never exceeds not-checked-in |
| ViewEventStats.RevenueOverPurchases | frontend/src/pages/admin/ViewEventStats.jsx:63-68 | `registered` rows add nothing to revenue |
| ViewEventStats.Cells | frontend/src/pages/admin/ViewEventStats.jsx:91-97 | five cells per row |
| ViewEventStats.DownloadCsv | frontend/src/pages/admin/ViewEventStats.jsx:83-102 | no CSV exactly when the filtered list is empty |
| ViewEventStats.DownloadCsvRoundTrip | frontend/src/pages/admin/ViewEventStats.jsx:89-102 | the 5-column header and one line per filtered row, missing fields as "" |
| ViewRegistrations.FilteredRegistrations | frontend/src/pages/ViewRegistrations.jsx:48-58 | every shown row matches the roll search and the entry filter |
| ViewRegistrations.FilteredExactly | frontend/src/pages/ViewRegistrations.jsx:48-58 | a row is shown exactly when listed and matching both filters |
| ViewRegistrations.EmptySearchKeepsRollNumbers | frontend/src/pages/ViewRegistrations.jsx:50-52 | with an empty search, exactly the rows with a roll number are kept |
| ViewRegistrations.OtherFilterKeepsAll | frontend/src/pages/ViewRegistrations.jsx:53-57 | an entry filter other than `entered` or `not_entered` keeps everything |
| ViewRegistrations.EntryFiltersPartition | frontend/src/pages/ViewRegistrations.jsx:53-57 | `entered` and `not_entered` split the roll-filtered list, counts and contents |
| ViewRegistrations.CountRows | frontend/src/pages/ViewRegistrations.jsx:60-62 | entered + not entered = total = number of listed rows |
| ViewRegistrations.Cells | frontend/src/pages/ViewRegistrations.jsx:66-72 | five cells; "Checked In At" is "" without a check-in time |
| ViewRegistrations.DownloadCsvRoundTrip | frontend/src/pages/ViewRegistrations.jsx:64-75 | the header and one line per shown row, 1 + rows lines |
| ViewRegistrations.EmptyDownload | frontend/src/pages/ViewRegistrations.jsx:74-75 | with nothing shown the file is still written: header line and an empty line |
| ViewRegistrations.CommaInDateBreaksLine | frontend/src/pages/ViewRegistrations.jsx:71-75 | a printed date with "," breaks its row's line |
| SuperAdminDashboard.FilteredEvents | frontend/src/pages/superadmin/SuperAdminDashboard.jsx:129-134 | nothing before the dashboard loads |
| SuperAdminDashboard.FilteredEventsExactly | frontend/src/pages/superadmin/SuperAdminDashboard.jsx:131-133 | an event is shown exactly when its title contains the search ignoring case |
| SuperAdminDashboard.EmptySearchShowsAllEvents | frontend/src/pages/superadmin/SuperAdminDashboard.jsx:131-133 | an empty search shows every event |
| SuperAdminDashboard.FilteredAdmins | frontend/src/pages/superadmin/SuperAdminDashboard.jsx:136-142 | never more admins than listed |
| SuperAdminDashboard.FilteredAdminsExactly | frontend/src/pages/superadmin/SuperAdminDashboard.jsx:137-141 | an admin is shown exactly when name or email contains the search ignoring case |
| SuperAdminDashboard.EmptySearchShowsAllAdmins | frontend/src/pages/superadmin/SuperAdminDashboard.jsx:137-141 | an empty search shows every admin |
| SuperAdminDashboard.AmountOrZero | frontend/src/pages/superadmin/SuperAdminDashboard.jsx:104 | a missing payment prints as 0 |
| SuperAdminDashboard.Cells | frontend/src/pages/superadmin/SuperAdminDashboard.jsx:99-105 | five cells, the last the amount |
| SuperAdminDashboard.DownloadCsv | frontend/src/pages/superadmin/SuperAdminDashboard.jsx:86-110 | no CSV exactly when there are no registrations |
| SuperAdminDashboard.DownloadCsvRoundTrip | frontend/src/pages/superadmin/SuperAdminDashboard.jsx:91-110 | the 5-column header and one line per registration, amount 0 when unpaid |

## Left out

- **Foreign code is reduced to parameters.**
  - Oracles: the HMAC-SHA256 routine, bcrypt (`hash` and `compare`), the gateway's order creation, `Math.random` (`draw`), QR image generation, and mail delivery (`deliveryOk`).
  - The clock: `now`, in milliseconds.
  - The token keys.
  - `backend/models/Otp.js`, `backend/middleware/authMiddleware.js`, `backend/middleware/upload.js` and `backend/utils/sendEmail.js` are not part of this model. The authenticated caller is a `Caller` value, and an uploaded file is its path.
- **Concurrency.** Every check-then-save is modelled as one sequential step. Interleaved requests (two verifies of one payment, two registrations of one email) are not modelled.
- **Floating point.** Prices and amounts are integers, and the gateway receives `price * 100` paise. `Math.round`, `Number(...)` coercion and a price given as a string are not modelled.
- **Strings.ToLower and Strings.ToUpper** map ASCII letters only. JavaScript's full Unicode case mapping is not modelled, and neither is `trim`'s full set of white-space characters beyond the common ones.
- **Tokens.Verify** treats a malformed token string like a token signed with another key. Signature internals and clock skew are not modelled.
- **Query casting.**
  - An id that is not a valid ObjectId (which makes `findById` throw, giving a 500 answer) is not modelled: ids are numbers and the lookup simply finds nothing.
  - Queries on `email` and `rollNo` are taken to pass through the schema setters, as Mongoose casts query values.
- **Request body fields** that are absent, `null` or empty are one case: the empty string, or `None`. A field of the wrong type in an update body is not modelled.
- **`rejectionReason`** is not a declared schema path. Mongoose's strict mode would drop it on save, but the model keeps the handler's write.
- **Populated fields** (`populate`) are not part of the returned values of the listings. The pages' rows are a separate datatype, `Report.Row`.
- **Store invariants.** No handler of this model creates a second registration for a (user, event) pair, or a registration still in `registered`, so `Db.Valid()` includes both. The schema has no unique index and allows the `registered` default, so rows written by code outside these routes could break either. `Scenarios.UnpaidRowLocksOut` is about such a row.
- **Failed saves after `populate`.** `PaymentRoutes.VerifyPayment` and `EntryRoutes.Scan` take Mongoose's behaviour as given: a required reference that `populate` found missing is null, and the document then fails validation on `save()`. Mongoose's own code is not part of this model.
- **UI and plumbing.** React rendering, hooks, toasts, navigation, auto-refresh, `localStorage`, the `fetch`/`axios` calls, Blob downloads and `server.js` wiring are out of scope.
- **EntryRoutes.Scan** takes no event parameter, because the handler never reads the organiser's selected event.
