/** What each request handler that reads or writes the database does, as a
    function from the tables, the session and the submitted form to the new
    tables, the new session and the notice shown; and what those functions
    guarantee. The Store class runs the same handlers in place. */
module Booking {
  import opened Schema
  import opened Notices
  import opened Sessions

  /** Result of one request. */
  datatype Step = Step(tables: Tables, session: SessionData, notice: Notice)

  /** The registration form. */
  datatype Registration = Registration(
    firstName: string, lastName: string, email: string,
    password: string, confirmPassword: string, phone: string, address: string)

  /** The add-vehicle form, with year and mileage already parsed. */
  datatype VehicleForm = VehicleForm(
    make: string, model: string, year: int, vin: string,
    licensePlate: string, color: string, mileage: Option<int>)

  /** The booking form shared by add_appointment and edit_appointment;
      `notes` is '' when the field is absent. */
  datatype AppointmentForm = AppointmentForm(
    vehicleId: int, serviceId: int, date: string, time: string, notes: string)

  /** The profile form. */
  datatype ProfileForm = ProfileForm(firstName: string, lastName: string, phone: string, address: string)

  /** A storage error raised inside an administrator's delete transaction:
      `FailsAt(k)` names the statement that raises, counting the opening
      SELECT as 0, then each DELETE, then the COMMIT. */
  datatype Fault = NoFault | FailsAt(statement: nat)

  /** Some statement among the first `count` raises. */
  predicate Raises(fault: Fault, count: nat)
  {
    fault.FailsAt? && fault.statement < count
  }

  const MinPasswordLength := 6

  // ---------------------------------------------------------------- lookups

  /** `SELECT * FROM customers WHERE email = ? AND password = ?`. */
  ghost function FindCustomer(customers: map<int, Customer>, email: string, digest: string): (r: Option<int>)
    ensures r.Some? <==> exists id :: id in customers && customers[id].email == email && customers[id].password == digest
    ensures r.Some? ==> r.value in customers && customers[r.value].email == email && customers[r.value].password == digest
  {
    if exists id :: id in customers && customers[id].email == email && customers[id].password == digest then
      var id :| id in customers && customers[id].email == email && customers[id].password == digest; Some(id)
    else
      None
  }

  // -------------------------------------------------------------- statements

  /** `DELETE FROM appointments WHERE customer_id = ?`. */
  function DeleteAppointmentsOf(t: Tables, customerId: int): Tables
  {
    t.(appointments := map id | id in t.appointments && t.appointments[id].customerId != customerId :: t.appointments[id])
  }

  /** `DELETE FROM vehicles WHERE customer_id = ?`. */
  function DeleteVehiclesOf(t: Tables, customerId: int): Tables
  {
    t.(vehicles := map id | id in t.vehicles && t.vehicles[id].customerId != customerId :: t.vehicles[id])
  }

  /** `DELETE FROM customers WHERE id = ?`. */
  function DeleteCustomerRow(t: Tables, customerId: int): Tables
  {
    t.(customers := t.customers - {customerId})
  }

  /** `DELETE FROM appointments WHERE vehicle_id = ?`. */
  function DeleteAppointmentsFor(t: Tables, vehicleId: int): Tables
  {
    t.(appointments := map id | id in t.appointments && t.appointments[id].vehicleId != vehicleId :: t.appointments[id])
  }

  /** `DELETE FROM vehicles WHERE id = ?`. */
  function DeleteVehicleRow(t: Tables, vehicleId: int): Tables
  {
    t.(vehicles := t.vehicles - {vehicleId})
  }

  // ---------------------------------------------------------------- handlers

  /** `register` (POST). */
  function Register(t: Tables, s: SessionData, hash: string -> string, form: Registration): Step
  {
    if form.password != form.confirmPassword then Step(t, s, PasswordsDiffer)
    else if |form.password| < MinPasswordLength then Step(t, s, PasswordTooShort)
    else if EmailTaken(t.customers, form.email) then Step(t, s, EmailInUse)
    else
      var c := Customer(form.firstName, form.lastName, form.email, hash(form.password), form.phone, form.address);
      Step(InsertCustomer(t, c), SignedIn(s, t.customerSeq + 1, FullName(c)), Registered)
  }

  /** `login` (POST). */
  ghost function Login(t: Tables, s: SessionData, hash: string -> string, email: string, password: string): Step
  {
    match FindCustomer(t.customers, email, hash(password))
    case None => Step(t, s, InvalidCredentials)
    case Some(id) => Step(t, SignedIn(s, id, FullName(t.customers[id])), WelcomeBack)
  }

  /** `edit_profile` (POST): `UPDATE customers ... WHERE id = ?` matches no
      row when the session's customer has been deleted, but the session's
      display name is replaced either way. */
  function EditProfile(t: Tables, s: SessionData, form: ProfileForm): Step
  {
    if !CustomerSignedIn(s) then Step(t, s, LoginRequired)
    else
      var id := s.customerId.value;
      var customers := if id in t.customers then
          t.customers[id := t.customers[id].(firstName := form.firstName, lastName := form.lastName,
                                             phone := form.phone, address := form.address)]
        else t.customers;
      Step(t.(customers := customers), s.(customerName := Some(DisplayName(form.firstName, form.lastName))), ProfileUpdated)
  }

  /** `add_vehicle` (POST): the only failure is the UNIQUE constraint on vin. */
  function AddVehicle(t: Tables, s: SessionData, form: VehicleForm): Step
  {
    if !CustomerSignedIn(s) then Step(t, s, LoginRequired)
    else if VinTaken(t.vehicles, form.vin) then Step(t, s, VehicleRejected)
    else
      var v := Vehicle(s.customerId.value, form.make, form.model, form.year,
                       form.vin, form.licensePlate, form.color, form.mileage);
      Step(InsertVehicle(t, v), s, VehicleAdded)
  }

  /** `add_appointment` (POST): the service id is stored unchecked and the
      status column takes its default. */
  function AddAppointment(t: Tables, s: SessionData, form: AppointmentForm): Step
  {
    if !CustomerSignedIn(s) then Step(t, s, LoginRequired)
    else if !OwnedBy(t.vehicles, form.vehicleId, s.customerId.value) then Step(t, s, InvalidVehicle)
    else
      var a := Appointment(s.customerId.value, form.vehicleId, form.serviceId,
                           form.date, form.time, DefaultStatus, Some(form.notes));
      Step(InsertAppointment(t, a), s, AppointmentScheduled)
  }

  /** `cancel_appointment`: only cancelled and completed appointments are
      refused, so one in progress can be cancelled. */
  function CancelAppointment(t: Tables, s: SessionData, id: int): Step
  {
    if !CustomerSignedIn(s) then Step(t, s, LoginRequired)
    else if !OwnsAppointment(t.appointments, id, s.customerId.value) then Step(t, s, AppointmentNotFound)
    else if t.appointments[id].status == Cancelled then Step(t, s, AlreadyCancelled)
    else if t.appointments[id].status == Completed then Step(t, s, CompletedNotCancellable)
    else
      var a := t.appointments[id];
      Step(t.(appointments := t.appointments[id := a.(status := Cancelled)]), s, AppointmentCancelled)
  }

  /** `edit_appointment` (POST): the service id is stored unchecked. */
  function EditAppointment(t: Tables, s: SessionData, id: int, form: AppointmentForm): Step
  {
    if !CustomerSignedIn(s) then Step(t, s, LoginRequired)
    else if !OwnsAppointment(t.appointments, id, s.customerId.value) then Step(t, s, AppointmentNotFound)
    else if t.appointments[id].status != Scheduled then Step(t, s, OnlyScheduledEditable)
    else if !OwnedBy(t.vehicles, form.vehicleId, s.customerId.value) then Step(t, s, InvalidVehicle)
    else
      var a := t.appointments[id].(vehicleId := form.vehicleId, serviceId := form.serviceId,
                                   date := form.date, time := form.time, notes := Some(form.notes));
      Step(t.(appointments := t.appointments[id := a]), s, AppointmentUpdated)
  }

  /** `admin_delete_customer`: SELECT, three DELETEs and a COMMIT in one
      transaction; any storage error rolls all of it back. */
  function DeleteCustomer(t: Tables, s: SessionData, id: int, fault: Fault): Step
  {
    if !AdminSignedIn(s) then Step(t, s, AdminRequired)
    else if Raises(fault, 1) then Step(t, s, CustomerDeleteFailed)
    else if id !in t.customers then Step(t, s, CustomerNotFound)
    else if Raises(fault, 5) then Step(t, s, CustomerDeleteFailed)
    else Step(DeleteCustomerRow(DeleteVehiclesOf(DeleteAppointmentsOf(t, id), id), id), s, CustomerDeleted)
  }

  /** `admin_delete_vehicle`: SELECT, two DELETEs and a COMMIT in one
      transaction. The SELECT joins the owner, so a vehicle whose customer
      row is gone is reported as not found. */
  function DeleteVehicle(t: Tables, s: SessionData, id: int, fault: Fault): Step
  {
    if !AdminSignedIn(s) then Step(t, s, AdminRequired)
    else if Raises(fault, 1) then Step(t, s, VehicleDeleteFailed)
    else if !(id in t.vehicles && t.vehicles[id].customerId in t.customers) then Step(t, s, VehicleNotFound)
    else if Raises(fault, 4) then Step(t, s, VehicleDeleteFailed)
    else Step(DeleteVehicleRow(DeleteAppointmentsFor(t, id), id), s, VehicleDeleted)
  }

  // ------------------------------------------------------------------ guards

  /** Every customer handler refuses an anonymous session and writes nothing. */
  lemma AnonymousRefused(t: Tables, s: SessionData, id: int, vehicle: VehicleForm, booking: AppointmentForm)
    requires !CustomerSignedIn(s)
    ensures AddVehicle(t, s, vehicle) == Step(t, s, LoginRequired)
    ensures AddAppointment(t, s, booking) == Step(t, s, LoginRequired)
    ensures CancelAppointment(t, s, id) == Step(t, s, LoginRequired)
    ensures EditAppointment(t, s, id, booking) == Step(t, s, LoginRequired)
  {
  }

  /** Both administrator deletes refuse a session without the flag. */
  lemma NonAdminRefused(t: Tables, s: SessionData, id: int, fault: Fault)
    requires !AdminSignedIn(s)
    ensures DeleteCustomer(t, s, id, fault) == Step(t, s, AdminRequired)
    ensures DeleteVehicle(t, s, id, fault) == Step(t, s, AdminRequired)
  {
  }

  // ---------------------------------------------------------- authentication

  /** Registration fails, writing nothing, on a confirmation mismatch, a
      password under six characters or a registered email, in that order;
      otherwise exactly one customer is added, holding the digest of the
      password, and the session is signed in as that customer. */
  lemma RegisterOutcome(t: Tables, s: SessionData, hash: string -> string, form: Registration)
    requires Valid(t)
    ensures var r := Register(t, s, hash, form);
      && (form.password != form.confirmPassword ==> r.notice == PasswordsDiffer)
      && (form.password == form.confirmPassword && |form.password| < MinPasswordLength ==> r.notice == PasswordTooShort)
      && (form.password == form.confirmPassword && |form.password| >= MinPasswordLength && EmailTaken(t.customers, form.email) ==>
                r.notice == EmailInUse)
      && (r.notice == Registered <==>
            form.password == form.confirmPassword && |form.password| >= MinPasswordLength && !EmailTaken(t.customers, form.email))
      && (r.notice != Registered ==> r.tables == t && r.session == s && r.notice.Category() == Error)
      && (r.notice == Registered ==>
            && r.session.customerId.Some?
            && var id := r.session.customerId.value;
            && id !in t.customers
            && r.tables.customers == t.customers[id := Customer(form.firstName, form.lastName, form.email,
                                                                hash(form.password), form.phone, form.address)]
            && r.tables.(customers := t.customers, customerSeq := t.customerSeq) == t
            && r.session == SignedIn(s, id, DisplayName(form.firstName, form.lastName)))
  {
    var r := Register(t, s, hash, form);
    if r.notice == Registered {
      assert t.customerSeq + 1 !in t.customers;
    }
  }

  /** Login signs in exactly when some customer has that email and the
      digest of that password, and then as that customer; otherwise the
      session is unchanged. The tables and the administrator flag never
      change. */
  lemma LoginOutcome(t: Tables, s: SessionData, hash: string -> string, email: string, password: string)
    requires Valid(t)
    ensures var r := Login(t, s, hash, email, password);
      && r.tables == t
      && r.session.adminAuthenticated == s.adminAuthenticated
      && (r.notice == WelcomeBack <==>
            exists id :: id in t.customers && t.customers[id].email == email && t.customers[id].password == hash(password))
      && (r.notice != WelcomeBack ==> r.session == s && r.notice == InvalidCredentials)
      && (forall id :: id in t.customers && t.customers[id].email == email && t.customers[id].password == hash(password) ==>
                r.session == SignedIn(s, id, FullName(t.customers[id])))
  {
    var r := Login(t, s, hash, email, password);
    forall id | id in t.customers && t.customers[id].email == email && t.customers[id].password == hash(password)
      ensures r.session == SignedIn(s, id, FullName(t.customers[id]))
    {
      var found := FindCustomer(t.customers, email, hash(password));
      assert found.Some?;
      assert t.customers[found.value].email == t.customers[id].email;
    }
  }

  /** A customer who has just registered can log in with the same email and
      password, from any session, and is signed in under the new id. */
  lemma RegisterThenLogin(t: Tables, s: SessionData, later: SessionData, hash: string -> string, form: Registration)
    requires Valid(t)
    requires Register(t, s, hash, form).notice == Registered
    ensures var r := Register(t, s, hash, form);
      Login(r.tables, later, hash, form.email, form.password).session.customerId == r.session.customerId
  {
    var r := Register(t, s, hash, form);
    RegisterPreservesValid(t, s, hash, form);
    var id := t.customerSeq + 1;
    assert id in r.tables.customers && r.tables.customers[id].email == form.email;
    LoginOutcome(r.tables, later, hash, form.email, form.password);
  }

  /** Editing the profile rewrites the name, phone and address of the
      session's own row only; email, password and every other row stay, and
      the session keeps its customer id under the new display name. */
  lemma EditProfileOutcome(t: Tables, s: SessionData, form: ProfileForm)
    requires CustomerSignedIn(s)
    ensures var r := EditProfile(t, s, form); var id := s.customerId.value;
      && r.notice == ProfileUpdated
      && r.session == s.(customerName := Some(DisplayName(form.firstName, form.lastName)))
      && r.tables.customers.Keys == t.customers.Keys
      && (id in t.customers ==>
            && r.tables.customers[id].email == t.customers[id].email
            && r.tables.customers[id].password == t.customers[id].password
            && r.tables.customers[id].firstName == form.firstName
            && r.tables.customers[id].lastName == form.lastName
            && r.tables.customers[id].phone == form.phone
            && r.tables.customers[id].address == form.address)
      && (forall k :: k in t.customers && k != id ==> r.tables.customers[k] == t.customers[k])
      && r.tables.(customers := t.customers) == t
  {
  }

  // ---------------------------------------------------------------- vehicles

  /** Adding a vehicle fails, writing nothing, exactly when the VIN is
      already stored; otherwise exactly one vehicle is added, owned by the
      session's customer, and no other table changes. */
  lemma AddVehicleOutcome(t: Tables, s: SessionData, form: VehicleForm)
    requires Valid(t) && CustomerSignedIn(s)
    ensures var r := AddVehicle(t, s, form);
      && r.session == s
      && (r.notice == VehicleAdded <==> !VinTaken(t.vehicles, form.vin))
      && (r.notice != VehicleAdded ==> r.tables == t && r.notice == VehicleRejected)
      && (r.notice == VehicleAdded ==>
            var id := t.vehicleSeq + 1;
            && id !in t.vehicles
            && r.tables.vehicles == t.vehicles[id := Vehicle(s.customerId.value, form.make, form.model, form.year,
                                                             form.vin, form.licensePlate, form.color, form.mileage)]
            && r.tables.(vehicles := t.vehicles, vehicleSeq := t.vehicleSeq) == t)
  {
    assert t.vehicleSeq + 1 !in t.vehicles;
  }

  // ------------------------------------------------------------ appointments

  /** Booking writes nothing and reports an invalid vehicle unless the
      vehicle is the session customer's; the service is never checked. On
      success exactly one appointment is added, for that customer, with the
      submitted fields and the default status, scheduled. */
  lemma AddAppointmentOutcome(t: Tables, s: SessionData, form: AppointmentForm)
    requires Valid(t) && CustomerSignedIn(s)
    ensures var r := AddAppointment(t, s, form);
      && r.session == s
      && (r.notice == AppointmentScheduled <==> OwnedBy(t.vehicles, form.vehicleId, s.customerId.value))
      && (r.notice != AppointmentScheduled ==> r.tables == t && r.notice == InvalidVehicle)
      && (r.notice == AppointmentScheduled ==>
            var id := t.appointmentSeq + 1;
            && id !in t.appointments
            && r.tables.appointments == t.appointments[id := Appointment(s.customerId.value, form.vehicleId,
                                                                         form.serviceId, form.date, form.time,
                                                                         Scheduled, Some(form.notes))]
            && r.tables.(appointments := t.appointments, appointmentSeq := t.appointmentSeq) == t)
  {
    assert t.appointmentSeq + 1 !in t.appointments;
  }

  /** Cancelling: an appointment that is missing or another customer's is
      "not found", a cancelled one and a completed one each get their own
      warning, and nothing changes in those cases; otherwise (scheduled or
      in progress) only that appointment's status changes, to cancelled. */
  lemma CancelOutcome(t: Tables, s: SessionData, id: int)
    requires CustomerSignedIn(s)
    ensures var r := CancelAppointment(t, s, id); var owner := s.customerId.value;
      && r.session == s
      && (!OwnsAppointment(t.appointments, id, owner) ==> r.tables == t && r.notice == AppointmentNotFound)
      && (OwnsAppointment(t.appointments, id, owner) && t.appointments[id].status == Cancelled ==>
                r.tables == t && r.notice == AlreadyCancelled && r.notice.Category() == Warning)
      && (OwnsAppointment(t.appointments, id, owner) && t.appointments[id].status == Completed ==>
                r.tables == t && r.notice == CompletedNotCancellable && r.notice.Category() == Warning)
      && (r.notice == AppointmentCancelled <==>
            OwnsAppointment(t.appointments, id, owner) && t.appointments[id].status in {Scheduled, InProgress})
      && (r.notice == AppointmentCancelled ==>
            && r.tables.appointments.Keys == t.appointments.Keys
            && r.tables.appointments[id] == t.appointments[id].(status := Cancelled)
            && (forall k :: k in t.appointments && k != id ==> r.tables.appointments[k] == t.appointments[k])
            && r.tables.(appointments := t.appointments) == t)
  {
  }

  /** Cancelling twice: the second request is refused as already cancelled
      and the status stays cancelled. */
  lemma CancelTwice(t: Tables, s: SessionData, id: int)
    requires CustomerSignedIn(s)
    requires CancelAppointment(t, s, id).notice == AppointmentCancelled
    ensures var once := CancelAppointment(t, s, id);
      var twice := CancelAppointment(once.tables, s, id);
      && twice == Step(once.tables, s, AlreadyCancelled)
      && twice.tables.appointments[id].status == Cancelled
  {
  }

  /** Editing is refused, writing nothing, when the appointment is missing or
      another customer's, when it is not scheduled, or when the new vehicle
      is not the customer's; otherwise only the vehicle, service, date, time
      and notes of that one appointment change. */
  lemma EditOutcome(t: Tables, s: SessionData, id: int, form: AppointmentForm)
    requires CustomerSignedIn(s)
    ensures var r := EditAppointment(t, s, id, form); var owner := s.customerId.value;
      && r.session == s
      && (!OwnsAppointment(t.appointments, id, owner) ==> r.tables == t && r.notice == AppointmentNotFound)
      && (OwnsAppointment(t.appointments, id, owner) && t.appointments[id].status != Scheduled ==>
                r.tables == t && r.notice == OnlyScheduledEditable)
      && (OwnsAppointment(t.appointments, id, owner) && t.appointments[id].status == Scheduled
            && !OwnedBy(t.vehicles, form.vehicleId, owner) ==>
                r.tables == t && r.notice == InvalidVehicle)
      && (r.notice == AppointmentUpdated <==>
            && OwnsAppointment(t.appointments, id, owner)
            && t.appointments[id].status == Scheduled
            && OwnedBy(t.vehicles, form.vehicleId, owner))
      && (r.notice != AppointmentUpdated ==> r.tables == t)
      && (r.notice == AppointmentUpdated ==>
            var a := r.tables.appointments[id];
            && r.tables.appointments.Keys == t.appointments.Keys
            && a.customerId == owner && a.status == Scheduled
            && a.vehicleId == form.vehicleId && a.serviceId == form.serviceId
            && a.date == form.date && a.time == form.time && a.notes == Some(form.notes)
            && (forall k :: k in t.appointments && k != id ==> r.tables.appointments[k] == t.appointments[k])
            && r.tables.(appointments := t.appointments) == t)
  {
  }

  // ------------------------------------------------------- administrator deletes

  /** Deleting a customer: a storage error or an unknown id changes nothing;
      otherwise the customer row, every vehicle and every appointment
      carrying that customer id are gone, and every other row is intact. */
  lemma DeleteCustomerOutcome(t: Tables, s: SessionData, id: int, fault: Fault)
    requires AdminSignedIn(s)
    ensures var r := DeleteCustomer(t, s, id, fault);
      && r.session == s
      && (r.notice != CustomerDeleted ==> r.tables == t)
      && (r.notice == CustomerDeleted <==> id in t.customers && !Raises(fault, 5))
      && (Raises(fault, 1) ==> r.notice == CustomerDeleteFailed)
      && (id !in t.customers && !Raises(fault, 1) ==> r.notice == CustomerNotFound)
      && (id in t.customers && Raises(fault, 5) ==> r.notice == CustomerDeleteFailed)
      && (r.notice == CustomerDeleted ==>
            && r.tables.customers == t.customers - {id}
            && (forall v :: v in r.tables.vehicles <==> v in t.vehicles && t.vehicles[v].customerId != id)
            && (forall v :: v in r.tables.vehicles ==> r.tables.vehicles[v] == t.vehicles[v])
            && (forall a :: a in r.tables.appointments <==> a in t.appointments && t.appointments[a].customerId != id)
            && (forall a :: a in r.tables.appointments ==> r.tables.appointments[a] == t.appointments[a])
            && r.tables.services == t.services
            && r.tables.customerSeq == t.customerSeq && r.tables.vehicleSeq == t.vehicleSeq
            && r.tables.serviceSeq == t.serviceSeq && r.tables.appointmentSeq == t.appointmentSeq)
  {
  }

  /** Deleting a vehicle: a storage error or an unknown (or ownerless) id
      changes nothing; otherwise the vehicle and every appointment that
      references it are gone, and every other row is intact. */
  lemma DeleteVehicleOutcome(t: Tables, s: SessionData, id: int, fault: Fault)
    requires AdminSignedIn(s)
    ensures var r := DeleteVehicle(t, s, id, fault);
      && r.session == s
      && (r.notice != VehicleDeleted ==> r.tables == t)
      && (r.notice == VehicleDeleted <==> id in t.vehicles && t.vehicles[id].customerId in t.customers && !Raises(fault, 4))
      && (Raises(fault, 1) ==> r.notice == VehicleDeleteFailed)
      && (!(id in t.vehicles && t.vehicles[id].customerId in t.customers) && !Raises(fault, 1) ==> r.notice == VehicleNotFound)
      && (id in t.vehicles && t.vehicles[id].customerId in t.customers && Raises(fault, 4) ==> r.notice == VehicleDeleteFailed)
      && (r.notice == VehicleDeleted ==>
            && r.tables.vehicles == t.vehicles - {id}
            && (forall a :: a in r.tables.appointments <==> a in t.appointments && t.appointments[a].vehicleId != id)
            && (forall a :: a in r.tables.appointments ==> r.tables.appointments[a] == t.appointments[a])
            && r.tables.(vehicles := t.vehicles, appointments := t.appointments) == t)
  {
  }

  // ------------------------------------------------------------- invariants

  lemma RegisterPreservesValid(t: Tables, s: SessionData, hash: string -> string, form: Registration)
    requires Valid(t)
    ensures Valid(Register(t, s, hash, form).tables)
  {
    var r := Register(t, s, hash, form);
    if r.notice == Registered {
      var id := t.customerSeq + 1;
      assert !EmailTaken(t.customers, form.email);
      forall i, j | i in r.tables.customers && j in r.tables.customers
                    && r.tables.customers[i].email == r.tables.customers[j].email
        ensures i == j
      {
        if i != id && j != id {
          assert t.customers[i].email == t.customers[j].email;
        }
      }
    }
  }

  lemma EditProfilePreservesValid(t: Tables, s: SessionData, form: ProfileForm)
    requires Valid(t)
    ensures Valid(EditProfile(t, s, form).tables)
  {
    var r := EditProfile(t, s, form);
    forall i, j | i in r.tables.customers && j in r.tables.customers
                  && r.tables.customers[i].email == r.tables.customers[j].email
      ensures i == j
    {
      assert r.tables.customers[i].email == t.customers[i].email;
      assert r.tables.customers[j].email == t.customers[j].email;
    }
  }

  lemma AddVehiclePreservesValid(t: Tables, s: SessionData, form: VehicleForm)
    requires Valid(t)
    ensures Valid(AddVehicle(t, s, form).tables)
  {
    var r := AddVehicle(t, s, form);
    if r.notice == VehicleAdded {
      var id := t.vehicleSeq + 1;
      assert !VinTaken(t.vehicles, form.vin);
      forall i, j | i in r.tables.vehicles && j in r.tables.vehicles
                    && r.tables.vehicles[i].vin == r.tables.vehicles[j].vin
        ensures i == j
      {
        if i != id && j != id {
          assert t.vehicles[i].vin == t.vehicles[j].vin;
        }
      }
      forall a | a in r.tables.appointments
        ensures OwnedBy(r.tables.vehicles, r.tables.appointments[a].vehicleId, r.tables.appointments[a].customerId)
      {
        assert OwnedBy(t.vehicles, t.appointments[a].vehicleId, t.appointments[a].customerId);
      }
    }
  }

  lemma AddAppointmentPreservesValid(t: Tables, s: SessionData, form: AppointmentForm)
    requires Valid(t)
    ensures Valid(AddAppointment(t, s, form).tables)
  {
  }

  lemma CancelPreservesValid(t: Tables, s: SessionData, id: int)
    requires Valid(t)
    ensures Valid(CancelAppointment(t, s, id).tables)
  {
  }

  lemma EditPreservesValid(t: Tables, s: SessionData, id: int, form: AppointmentForm)
    requires Valid(t)
    ensures Valid(EditAppointment(t, s, id, form).tables)
  {
  }

  lemma DeleteCustomerPreservesValid(t: Tables, s: SessionData, id: int, fault: Fault)
    requires Valid(t)
    ensures Valid(DeleteCustomer(t, s, id, fault).tables)
  {
    var r := DeleteCustomer(t, s, id, fault);
    if r.notice == CustomerDeleted {
      forall a | a in r.tables.appointments
        ensures OwnedBy(r.tables.vehicles, r.tables.appointments[a].vehicleId, r.tables.appointments[a].customerId)
      {
        assert OwnedBy(t.vehicles, t.appointments[a].vehicleId, t.appointments[a].customerId);
      }
    }
  }

  lemma DeleteVehiclePreservesValid(t: Tables, s: SessionData, id: int, fault: Fault)
    requires Valid(t)
    ensures Valid(DeleteVehicle(t, s, id, fault).tables)
  {
    var r := DeleteVehicle(t, s, id, fault);
    if r.notice == VehicleDeleted {
      forall a | a in r.tables.appointments
        ensures OwnedBy(r.tables.vehicles, r.tables.appointments[a].vehicleId, r.tables.appointments[a].customerId)
      {
        assert OwnedBy(t.vehicles, t.appointments[a].vehicleId, t.appointments[a].customerId);
      }
    }
  }
}
