/** The database as the handlers see it: four tables updated in place by
    INSERT, UPDATE and DELETE statements, each handler proved to do what
    its Booking function says. */
module Store {
  import opened Schema
  import opened Notices
  import opened Sessions
  import Booking
  import Seed

  /** `cursor.executemany(INSERT ...)` into a fresh table: each row in turn
      gets the next AUTOINCREMENT id. */
  method ExecuteMany<T>(rows: seq<T>) returns (table: map<int, T>, last: nat)
    ensures table == Numbered(rows) && last == |rows|
  {
    table, last := map[], 0;
    while last < |rows|
      invariant last <= |rows|
      invariant table == Numbered(rows[..last])
    {
      NumberedSnoc(rows[..last], rows[last]);
      assert rows[..last + 1] == rows[..last] + [rows[last]];
      table := table[last + 1 := rows[last]];
      last := last + 1;
    }
    assert rows[..last] == rows;
  }

  class Store {
    /** `hash_password`: the digest function, left uninterpreted. */
    const hash: string -> string

    var customers: map<int, Customer>
    var customerSeq: nat
    var vehicles: map<int, Vehicle>
    var vehicleSeq: nat
    var services: map<int, Service>
    var serviceSeq: nat
    var appointments: map<int, Appointment>
    var appointmentSeq: nat

    /** The tables as one value. */
    function Contents(): Tables
      reads this
    {
      Tables(customers, customerSeq, vehicles, vehicleSeq, services, serviceSeq, appointments, appointmentSeq)
    }

    ghost predicate Valid()
      reads this
    {
      Schema.Valid(Contents())
    }

    /** `setup_database`: creates the four empty tables and loads the sample
        services, customers, vehicles and appointments, in that order. */
    constructor Setup(hash: string -> string)
      ensures this.hash == hash
      ensures Contents() == Seed.Initial(hash) && Valid()
    {
      var s, ss := ExecuteMany(Seed.Services);
      var c, cs := ExecuteMany(Seed.Customers(hash));
      var v, vs := ExecuteMany(Seed.Vehicles);
      var a, aseq := ExecuteMany(Seed.Appointments);
      this.hash := hash;
      services, serviceSeq, customers, customerSeq := s, ss, c, cs;
      vehicles, vehicleSeq, appointments, appointmentSeq := v, vs, a, aseq;
      new;
      Seed.InitialValid(hash);
    }

    /** Puts every table back as it was when the transaction began. */
    method Rollback(snapshot: Tables)
      modifies this
      ensures Contents() == snapshot
    {
      customers, customerSeq := snapshot.customers, snapshot.customerSeq;
      vehicles, vehicleSeq := snapshot.vehicles, snapshot.vehicleSeq;
      services, serviceSeq := snapshot.services, snapshot.serviceSeq;
      appointments, appointmentSeq := snapshot.appointments, snapshot.appointmentSeq;
    }

    /** `register` (POST). */
    method Register(session: Session, form: Booking.Registration) returns (notice: Notice)
      requires Valid()
      modifies this, session
      ensures Valid()
      ensures var r := Booking.Register(old(Contents()), old(session.Data()), hash, form);
        Contents() == r.tables && session.Data() == r.session && notice == r.notice
    {
      if form.password != form.confirmPassword {
        return PasswordsDiffer;
      }
      if |form.password| < Booking.MinPasswordLength {
        return PasswordTooShort;
      }
      if EmailTaken(customers, form.email) {
        return EmailInUse;
      }
      var c := Customer(form.firstName, form.lastName, form.email, hash(form.password), form.phone, form.address);
      customerSeq := customerSeq + 1;
      customers := customers[customerSeq := c];
      // the SELECT by email finds the row just inserted
      session.SignIn(customerSeq, FullName(c));
      notice := Registered;
      Booking.RegisterPreservesValid(old(Contents()), old(session.Data()), hash, form);
    }

    /** `login` (POST). */
    method Login(session: Session, email: string, password: string) returns (notice: Notice)
      requires Valid()
      modifies session
      ensures var r := Booking.Login(Contents(), old(session.Data()), hash, email, password);
        session.Data() == r.session && notice == r.notice
    {
      var digest := hash(password);
      if exists id :: id in customers && customers[id].email == email && customers[id].password == digest {
        var id :| id in customers && customers[id].email == email && customers[id].password == digest;
        session.SignIn(id, FullName(customers[id]));
        notice := WelcomeBack;
        Booking.LoginOutcome(Contents(), old(session.Data()), hash, email, password);
      } else {
        notice := InvalidCredentials;
      }
    }

    /** `edit_profile` (POST). */
    method EditProfile(session: Session, form: Booking.ProfileForm) returns (notice: Notice)
      requires Valid()
      modifies this, session
      ensures Valid()
      ensures var r := Booking.EditProfile(old(Contents()), old(session.Data()), form);
        Contents() == r.tables && session.Data() == r.session && notice == r.notice
    {
      if session.customerId.None? {
        return LoginRequired;
      }
      var id := session.customerId.value;
      if id in customers {
        customers := customers[id := customers[id].(firstName := form.firstName, lastName := form.lastName,
                                                     phone := form.phone, address := form.address)];
      }
      session.customerName := Some(DisplayName(form.firstName, form.lastName));
      notice := ProfileUpdated;
      Booking.EditProfilePreservesValid(old(Contents()), old(session.Data()), form);
    }

    /** `add_vehicle` (POST). */
    method AddVehicle(session: Session, form: Booking.VehicleForm) returns (notice: Notice)
      requires Valid()
      modifies this
      ensures Valid()
      ensures var r := Booking.AddVehicle(old(Contents()), session.Data(), form);
        Contents() == r.tables && notice == r.notice
    {
      if session.customerId.None? {
        return LoginRequired;
      }
      if VinTaken(vehicles, form.vin) {
        // the UNIQUE constraint on vin aborts the INSERT
        return VehicleRejected;
      }
      var v := Vehicle(session.customerId.value, form.make, form.model, form.year,
                       form.vin, form.licensePlate, form.color, form.mileage);
      vehicleSeq := vehicleSeq + 1;
      vehicles := vehicles[vehicleSeq := v];
      notice := VehicleAdded;
      Booking.AddVehiclePreservesValid(old(Contents()), session.Data(), form);
    }

    /** `add_appointment` (POST). */
    method AddAppointment(session: Session, form: Booking.AppointmentForm) returns (notice: Notice)
      requires Valid()
      modifies this
      ensures Valid()
      ensures var r := Booking.AddAppointment(old(Contents()), session.Data(), form);
        Contents() == r.tables && notice == r.notice
    {
      if session.customerId.None? {
        return LoginRequired;
      }
      var customerId := session.customerId.value;
      if !OwnedBy(vehicles, form.vehicleId, customerId) {
        return InvalidVehicle;
      }
      var a := Appointment(customerId, form.vehicleId, form.serviceId, form.date, form.time,
                           DefaultStatus, Some(form.notes));
      appointmentSeq := appointmentSeq + 1;
      appointments := appointments[appointmentSeq := a];
      notice := AppointmentScheduled;
      Booking.AddAppointmentPreservesValid(old(Contents()), session.Data(), form);
    }

    /** `cancel_appointment`. */
    method CancelAppointment(session: Session, id: int) returns (notice: Notice)
      requires Valid()
      modifies this
      ensures Valid()
      ensures var r := Booking.CancelAppointment(old(Contents()), session.Data(), id);
        Contents() == r.tables && notice == r.notice
    {
      if session.customerId.None? {
        return LoginRequired;
      }
      if !OwnsAppointment(appointments, id, session.customerId.value) {
        return AppointmentNotFound;
      }
      var status := appointments[id].status;
      if status == Cancelled {
        return AlreadyCancelled;
      }
      if status == Completed {
        return CompletedNotCancellable;
      }
      appointments := appointments[id := appointments[id].(status := Cancelled)];
      notice := AppointmentCancelled;
      Booking.CancelPreservesValid(old(Contents()), session.Data(), id);
    }

    /** `edit_appointment` (POST). */
    method EditAppointment(session: Session, id: int, form: Booking.AppointmentForm) returns (notice: Notice)
      requires Valid()
      modifies this
      ensures Valid()
      ensures var r := Booking.EditAppointment(old(Contents()), session.Data(), id, form);
        Contents() == r.tables && notice == r.notice
    {
      if session.customerId.None? {
        return LoginRequired;
      }
      var customerId := session.customerId.value;
      if !OwnsAppointment(appointments, id, customerId) {
        return AppointmentNotFound;
      }
      if appointments[id].status != Scheduled {
        return OnlyScheduledEditable;
      }
      if !OwnedBy(vehicles, form.vehicleId, customerId) {
        return InvalidVehicle;
      }
      var a := appointments[id].(vehicleId := form.vehicleId, serviceId := form.serviceId,
                                 date := form.date, time := form.time, notes := Some(form.notes));
      appointments := appointments[id := a];
      notice := AppointmentUpdated;
      Booking.EditPreservesValid(old(Contents()), session.Data(), id, form);
    }

    /** `admin_delete_customer`: three DELETEs and a COMMIT in one
        transaction; a storage error at any statement rolls back. */
    method DeleteCustomer(session: Session, id: int, fault: Booking.Fault) returns (notice: Notice)
      requires Valid()
      modifies this
      ensures Valid()
      ensures var r := Booking.DeleteCustomer(old(Contents()), session.Data(), id, fault);
        Contents() == r.tables && notice == r.notice
    {
      if !session.adminAuthenticated {
        return AdminRequired;
      }
      var snapshot := Contents();
      if fault == Booking.FailsAt(0) {
        return CustomerDeleteFailed;
      }
      if id !in customers {
        return CustomerNotFound;
      }
      if fault == Booking.FailsAt(1) {
        Rollback(snapshot);
        return CustomerDeleteFailed;
      }
      appointments := map a | a in appointments && appointments[a].customerId != id :: appointments[a];
      if fault == Booking.FailsAt(2) {
        Rollback(snapshot);
        return CustomerDeleteFailed;
      }
      vehicles := map v | v in vehicles && vehicles[v].customerId != id :: vehicles[v];
      if fault == Booking.FailsAt(3) {
        Rollback(snapshot);
        return CustomerDeleteFailed;
      }
      customers := customers - {id};
      if fault == Booking.FailsAt(4) {
        Rollback(snapshot);
        return CustomerDeleteFailed;
      }
      notice := CustomerDeleted;
      Booking.DeleteCustomerPreservesValid(snapshot, session.Data(), id, fault);
    }

    /** `admin_delete_vehicle`: two DELETEs and a COMMIT in one transaction;
        a storage error at any statement rolls back. */
    method DeleteVehicle(session: Session, id: int, fault: Booking.Fault) returns (notice: Notice)
      requires Valid()
      modifies this
      ensures Valid()
      ensures var r := Booking.DeleteVehicle(old(Contents()), session.Data(), id, fault);
        Contents() == r.tables && notice == r.notice
    {
      if !session.adminAuthenticated {
        return AdminRequired;
      }
      var snapshot := Contents();
      if fault == Booking.FailsAt(0) {
        return VehicleDeleteFailed;
      }
      // the SELECT joins the owning customer
      if !(id in vehicles && vehicles[id].customerId in customers) {
        return VehicleNotFound;
      }
      if fault == Booking.FailsAt(1) {
        Rollback(snapshot);
        return VehicleDeleteFailed;
      }
      appointments := map a | a in appointments && appointments[a].vehicleId != id :: appointments[a];
      if fault == Booking.FailsAt(2) {
        Rollback(snapshot);
        return VehicleDeleteFailed;
      }
      vehicles := vehicles - {id};
      if fault == Booking.FailsAt(3) {
        Rollback(snapshot);
        return VehicleDeleteFailed;
      }
      notice := VehicleDeleted;
      Booking.DeleteVehiclePreservesValid(snapshot, session.Data(), id, fault);
    }
  }
}
