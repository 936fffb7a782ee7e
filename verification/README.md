# Automotive service scheduling: a Dafny model of the booking store

This project models the request handlers of a small automotive service
center web application. Customers register, sign in, add vehicles, and book,
edit and cancel service appointments. An administrator signs in with a fixed
credential pair, reads overview counts and hard-deletes customers or vehicles
together with their dependent rows. The handlers are modelled as operations
on an in-memory copy of the four SQLite tables (customers, vehicles, services,
appointments) and on the per-browser session. The seed data loaded by the
setup script is the initial store.

Modules, one file each:

- `schema.dfy` (`Schema`): the rows and `Tables`, one map per table. Each map
  has its AUTOINCREMENT counter, kept as the last id issued. This module also
  holds the database invariant `Valid`: ids already issued, unique emails,
  unique VINs, and every appointment's vehicle owned by that appointment's
  customer.
- `notices.dfy` (`Notices`): one constructor per flash message, plus the
  flash category (success, error, warning, info) it is shown with.
- `sessions.dfy` (`Sessions`): the session keys as a value, the
  `login_required` and `admin_required` guards, and the session-only
  handlers (logout, admin login, admin logout). The `Session` class holds the
  keys the handlers update in place.
- `booking.dfy` (`Booking`): each handler that touches the database, as a
  function from (tables, session, form) to (tables, session, notice). The
  lemmas state what each handler guarantees and that `Valid` is preserved.
- `dashboard.dfy` (`Dashboard`): the administrator dashboard's counts.
- `seed.dfy` (`Seed`): the sample rows and the initial tables, with proofs
  that the invariants hold in the initial state.
- `store.dfy` (`Store`): the `Store` class. Its fields are the tables and
  counters, and `hash` is the password digest. Its methods run the handlers
  statement by statement. Each method is proved to produce exactly the tables,
  session and notice of its `Booking` function, and to keep `Valid`. The
  `Setup` constructor runs the setup script's `executemany` loops.

The password digest (`hash_password`, SHA-256) is a parameter `hash: string ->
string`. Nothing is assumed about it, not even injectivity. Login therefore
succeeds for any password whose digest matches the stored one.

Behaviour of the code worth knowing:

- A customer can cancel an `in_progress` appointment. Only `cancelled` and
  `completed` appointments are refused (app.py:377-383).
- Booking and editing never check that the service exists or is active
  (app.py:323-326, 442-446).
- The VIN comes from the form as a string, so an empty VIN is stored as `''`,
  not NULL. The UNIQUE constraint therefore applies to it as well: a second
  vehicle with an empty VIN is rejected (app.py:253, setup.py:57).
- The vehicle-delete lookup joins the owner (app.py:1143-1146). A vehicle
  whose customer row no longer exists is reported as not found.
- Foreign keys are declared but not enforced (SQLite's default). A session
  that outlives an administrator's deletion of its customer can still insert
  vehicles and appointments under the deleted id. `Valid` therefore does not
  claim that every row's customer exists.
- The status column has no CHECK constraint (setup.py:87), so the database
  itself would accept any text there. The model's `Status` type has exactly
  the four values the application uses, and every state the application can
  reach stays within them: the seed stores `scheduled` (setup.py:143-150),
  booking leaves the column default `scheduled` (app.py:324), and cancelling
  writes `cancelled` (app.py:388). `Dashboard.StatusPartition` and
  `Dashboard.StatusCountsAddUp` rest on that, not on a database guarantee.

## Model

| member | source | states |
|---|---|---|
| `Schema.NumberedAt` | setup.py:36-38 | a fresh AUTOINCREMENT table after n inserts holds exactly ids 1..n, id k holding the k-th row |
| `Schema.NumberedSize` | setup.py:36-38 | a fresh table after n inserts holds exactly n rows |
| `Schema.NumberedSnoc` | setup.py:109-112 | one more insert adds exactly one row, under the next id |
| `Store.ExecuteMany` | setup.py:109-112 | `executemany` into a fresh table numbers the rows 1..n in list order and leaves the counter at n |
| `Sessions.SignedIn` | app.py:91-92 | signing in sets customer_id and customer_name and leaves the admin flag as it was |
| `Sessions.LogoutStep` | app.py:158-163 | logout clears customer_id, customer_name and the admin flag, with an info notice |
| `Sessions.AdminLoginStep` | app.py:956-971 | the admin flag is set iff the username is `admin` and the password `admin123`; on failure the session is unchanged; the customer keys never change |
| `Sessions.AdminLogoutStep` | app.py:973-978 | admin logout drops only the admin flag; customer_id and customer_name stay |
| `Sessions.Session.constructor` | app.py:41-60 | a new session has no keys, so both guards refuse |
| `Sessions.Session.SignIn` | app.py:145-146 | in-place update of the two customer keys |
| `Sessions.Session.Logout` | app.py:158-163 | `session.clear()`, equal to `LogoutStep` |
| `Sessions.Session.AdminLogin` | app.py:956-971 | in-place admin login, equal to `AdminLoginStep` |
| `Sessions.Session.AdminLogout` | app.py:973-978 | `session.pop('admin_authenticated')`, equal to `AdminLogoutStep` |
| `Booking.FindCustomer` | app.py:84-87 | the login lookup finds a row iff one has that email and that stored digest, and what it finds is such a row |
| `Booking.AnonymousRefused` | app.py:41-49 | without customer_id, adding a vehicle, booking, cancelling and editing all answer "please log in" and change nothing |
| `Booking.NonAdminRefused` | app.py:51-60 | without the admin flag, both deletes answer "admin access required" and change nothing |
| `Booking.RegisterOutcome` | app.py:113-149 | each check in order (confirmation mismatch, fewer than 6 characters, email taken) fails with its own error and no write; otherwise exactly one new customer with the digest of the password, and the session signed in as that customer |
| `Booking.LoginOutcome` | app.py:84-96 | login succeeds iff some customer has that email and the password's digest, and then signs in as that customer; on failure the session is unchanged; tables and admin flag never change |
| `Booking.RegisterThenLogin` | app.py:133-146 | right after registering, logging in with the same email and password from any session signs in the new customer id |
| `Booking.EditProfileOutcome` | app.py:488-507 | only name, phone and address of the session's own row change; email, password and other rows stay; the session keeps its id under the new name |
| `Booking.AddVehicleOutcome` | app.py:248-268 | adding fails with an error and no write iff the VIN is already stored; otherwise exactly one vehicle owned by the session customer, and the other tables are unchanged |
| `Booking.AddAppointmentOutcome` | app.py:304-329 | "invalid vehicle" with no write iff the vehicle is not the session customer's; the service is not checked; on success exactly one appointment for that customer with the form's fields and the default status, scheduled |
| `Booking.CancelOutcome` | app.py:366-391 | missing or foreign appointment: not-found error; cancelled: warning; completed: warning; none of these writes; otherwise only that appointment's status becomes cancelled |
| `Booking.CancelTwice` | app.py:377-379 | a second cancel is refused as already cancelled, and the status stays cancelled |
| `Booking.EditOutcome` | app.py:407-448 | refused with no write, each with its own notice, when the appointment is missing or foreign (not found), not scheduled (only scheduled editable), or the new vehicle is not the customer's (invalid vehicle); otherwise only vehicle, service, date, time and notes of that row change |
| `Booking.DeleteCustomerOutcome` | app.py:1079-1105 | a storage error ("delete failed") or an unknown id ("not found") changes nothing; otherwise the customer and all their vehicles and appointments are gone, every other row is intact, and the counters are unchanged |
| `Booking.DeleteVehicleOutcome` | app.py:1141-1163 | a storage error ("delete failed", at the SELECT or after the vehicle is found) or an unknown or ownerless id ("not found") changes nothing; otherwise the vehicle and every appointment referencing it are gone, and every other row is intact |
| `Booking.RegisterPreservesValid` | app.py:123-137 | registration keeps emails unique and every other invariant |
| `Booking.EditProfilePreservesValid` | app.py:496-500 | the profile update keeps every invariant |
| `Booking.AddVehiclePreservesValid` | app.py:259-268 | adding a vehicle keeps VINs unique and every other invariant |
| `Booking.AddAppointmentPreservesValid` | app.py:312-326 | booking keeps every appointment's vehicle owned by its customer |
| `Booking.CancelPreservesValid` | app.py:386-389 | cancelling keeps every invariant |
| `Booking.EditPreservesValid` | app.py:431-446 | editing keeps every appointment's vehicle owned by its customer |
| `Booking.DeleteCustomerPreservesValid` | app.py:1090-1098 | the customer cascade keeps the ownership invariant (no appointment is left pointing at a deleted vehicle) |
| `Booking.DeleteVehiclePreservesValid` | app.py:1152-1156 | the vehicle cascade keeps the ownership invariant |
| `Dashboard.StatusPartition` | app.py:1006-1014 | every appointment is counted under exactly one of the four statuses |
| `Dashboard.StatusCountsAddUp` | app.py:1006-1015 | the dashboard's scheduled, in-progress, completed and cancelled counts sum to its total |
| `Dashboard.CancelShiftsCounts` | app.py:386-389 | a successful cancel moves one appointment from its old status count to the cancelled count; other counts stay |
| `Seed.EmailsDistinct` | setup.py:116-120 | the three sample emails are pairwise distinct, as UNIQUE demands |
| `Seed.VehiclesWellFormed` | setup.py:129-134 | the four sample VINs are pairwise distinct, and every owner is a sample customer id in 1..3 |
| `Seed.OwnershipHolds` | setup.py:143-147 | every sample appointment's vehicle belongs to that appointment's customer |
| `Seed.InitialValid` | setup.py:98-152 | the seeded database satisfies every invariant |
| `Seed.InitialContents` | setup.py:98-152 | 3 customers, 4 vehicles, 8 services, 3 appointments; all services are active by default, and all appointments are scheduled |
| `Seed.InitialDashboard` | app.py:988-1021 | on the seeded database the dashboard shows 3, 4 and 3 rows, 3 of them scheduled, and 8 active services |
| `Store.Store.Setup` | setup.py:16-152 | the constructor's tables equal the seeded database and satisfy the invariant |
| `Store.Store.Rollback` | app.py:1103-1104 | restores every table and counter to the transaction's starting snapshot |
| `Store.Store.Register` | app.py:100-156 | in-place registration, equal to `Booking.Register`, keeping `Valid` |
| `Store.Store.Login` | app.py:76-98 | in-place login, equal to `Booking.Login`; tables untouched |
| `Store.Store.EditProfile` | app.py:482-514 | in-place profile edit, equal to `Booking.EditProfile`, keeping `Valid` |
| `Store.Store.AddVehicle` | app.py:244-273 | in-place insert, equal to `Booking.AddVehicle`, keeping `Valid` |
| `Store.Store.AddAppointment` | app.py:297-333 | in-place insert, equal to `Booking.AddAppointment`, keeping `Valid` |
| `Store.Store.CancelAppointment` | app.py:359-398 | in-place status update, equal to `Booking.CancelAppointment`, keeping `Valid` |
| `Store.Store.EditAppointment` | app.py:400-453 | in-place row update, equal to `Booking.EditAppointment`, keeping `Valid` |
| `Store.Store.DeleteCustomer` | app.py:1073-1109 | three DELETEs and a COMMIT, each able to fail and roll back; equal to `Booking.DeleteCustomer`, keeping `Valid` |
| `Store.Store.DeleteVehicle` | app.py:1135-1167 | two DELETEs and a COMMIT, each able to fail and roll back; equal to `Booking.DeleteVehicle`, keeping `Valid` |

## Left out

- Flask routing, templates, rendering of flash messages, redirects and form parsing. Forms arrive as typed values. The uncaught `int()` failures on year, mileage, vehicle_id and service_id are crashes, not modelled behaviour.
- The text interpolated into messages (the customer's first name, the deleted customer's or vehicle's description). Each message is one `Notice` constructor.
- The GET branches of `add_appointment` and `edit_appointment`, which only read. This includes the "add a vehicle first" redirect when the customer owns no vehicle.
- Read-only listing handlers (`index`, `dashboard`, `services`, `my_vehicles`, `my_appointments`, `profile`, the admin listings, `/api/my-vehicles`) and `get_current_customer`: they are SQL joins and orderings for display.
- The dashboard's 30-day customer count and recent-appointments list, `admin_chart_data`, `admin_analytics` and the chart builders. They depend on the clock, on date arithmetic or on floating-point prices.
- SHA-256 itself: `hash_password` is the uninterpreted parameter `hash`.
- Storage errors other than UNIQUE violations (a locked database, an I/O failure) are not modelled for registration, profile edit, vehicle insert, booking, cancel and edit, and neither are the "failed" notices those handlers show for them. Only the two administrator deletes take a `Fault` parameter naming the failing statement. In particular the model cannot produce this registration outcome: the SELECT after the commit (app.py:141-143) fails, so the new customer row stays committed, the session is not signed in, and "Registration failed" is shown. After such an error `add_appointment` and `edit_appointment` do not redirect: they fall through to the form-rendering queries on the connection their `finally` has already closed (app.py:330-336, 450-456), which raises an uncaught `ProgrammingError`.
- Integer width: form and route integers (`year`, `mileage`, `vehicle_id`, `service_id`, `<int:appointment_id>`, `<int:customer_id>`, `<int:vehicle_id>`) are unbounded `int` in the model. The SQLite driver binds only values that fit in 64 bits, and a larger one raises an uncaught `OverflowError`, so the handler crashes where the model answers normally: `AddVehicle` answers `VehicleAdded` for a huge year or mileage (app.py:252-263), `AddAppointment` answers `InvalidVehicle` for a huge vehicle id (app.py:305, 312-315) and `AppointmentScheduled` for a huge service id with an owned vehicle (app.py:306, 323-326), `CancelAppointment` answers `AppointmentNotFound` for a huge appointment id (app.py:368-371), and `DeleteCustomer` answers `CustomerNotFound` for a huge customer id (app.py:1081-1084); `EditAppointment` and `DeleteVehicle` are alike.
- Service prices are exact integer cents. setup.py:99-106 stores them as floating-point REAL values; no modelled operation reads a price.
- `created_at` columns and their CURRENT_TIMESTAMP defaults (the clock).
- The setup script's file removal, Flask import check, index creation and printing, the database connection lifecycle, the `PORT` lookup, and `db_viewer.py`.
