/** The four tables of the service-center database: their rows, the
    AUTOINCREMENT counters that number them, and the constraints the schema
    and the request handlers keep between them. */
module Schema {

  datatype Option<T> = None | Some(value: T)

  /** Values of the appointments.status column. */
  datatype Status = Scheduled | InProgress | Completed | Cancelled

  /** The column default, used by every INSERT that names no status. */
  const DefaultStatus: Status := Scheduled

  /** A customers row; `password` holds the digest, never the password itself. */
  datatype Customer = Customer(
    firstName: string, lastName: string, email: string,
    password: string, phone: string, address: string)

  /** A vehicles row; `mileage` is NULL when the form leaves it empty. */
  datatype Vehicle = Vehicle(
    customerId: int, make: string, model: string, year: int,
    vin: string, licensePlate: string, color: string, mileage: Option<int>)

  /** The default of services.is_active. */
  const DefaultActive := true

  /** A services row; the DECIMAL(10,2) price is kept in cents. */
  datatype Service = Service(
    name: string, description: string, estimatedDuration: int,
    priceCents: int, isActive: bool)

  /** An appointments row. */
  datatype Appointment = Appointment(
    customerId: int, vehicleId: int, serviceId: int,
    date: string, time: string, status: Status, notes: Option<string>)

  /** The whole database. Each `...Seq` is the largest id the table has
      handed out (SQLite's sqlite_sequence entry); AUTOINCREMENT gives the
      next row that number plus one and never reuses an id. */
  datatype Tables = Tables(
    customers: map<int, Customer>, customerSeq: nat,
    vehicles: map<int, Vehicle>, vehicleSeq: nat,
    services: map<int, Service>, serviceSeq: nat,
    appointments: map<int, Appointment>, appointmentSeq: nat)

  /** The rows of a freshly created table after inserting `rows` one by one:
      AUTOINCREMENT gives the k-th insert the id k. */
  function Numbered<T>(rows: seq<T>): map<int, T>
  {
    if rows == [] then map[] else Numbered(rows[..|rows| - 1])[|rows| := rows[|rows| - 1]]
  }

  /** Every key of a table is an id its counter has already issued. */
  predicate IdsIssued<T>(table: map<int, T>, last: nat)
  {
    forall id :: id in table ==> 1 <= id <= last
  }

  /** customers.email is UNIQUE. */
  predicate UniqueEmails(customers: map<int, Customer>)
  {
    forall i, j :: i in customers && j in customers && customers[i].email == customers[j].email ==> i == j
  }

  /** vehicles.vin is UNIQUE. */
  predicate UniqueVins(vehicles: map<int, Vehicle>)
  {
    forall i, j :: i in vehicles && j in vehicles && vehicles[i].vin == vehicles[j].vin ==> i == j
  }

  /** The row the handlers select with `WHERE id = ? AND customer_id = ?` on vehicles. */
  predicate OwnedBy(vehicles: map<int, Vehicle>, vehicleId: int, customerId: int)
  {
    vehicleId in vehicles && vehicles[vehicleId].customerId == customerId
  }

  /** The same selection on appointments. */
  predicate OwnsAppointment(appointments: map<int, Appointment>, appointmentId: int, customerId: int)
  {
    appointmentId in appointments && appointments[appointmentId].customerId == customerId
  }

  /** Every appointment's vehicle exists and belongs to the appointment's
      customer. No database constraint says so; the handlers keep it. */
  predicate VehiclesMatchOwners(t: Tables)
  {
    forall id :: id in t.appointments ==>
      OwnedBy(t.vehicles, t.appointments[id].vehicleId, t.appointments[id].customerId)
  }

  /** The invariant of the database as the application uses it. */
  predicate Valid(t: Tables)
  {
    && IdsIssued(t.customers, t.customerSeq)
    && IdsIssued(t.vehicles, t.vehicleSeq)
    && IdsIssued(t.services, t.serviceSeq)
    && IdsIssued(t.appointments, t.appointmentSeq)
    && UniqueEmails(t.customers)
    && UniqueVins(t.vehicles)
    && VehiclesMatchOwners(t)
  }

  /** `SELECT id FROM customers WHERE email = ?` finds a row. */
  predicate EmailTaken(customers: map<int, Customer>, email: string)
  {
    exists id :: id in customers && customers[id].email == email
  }

  /** An INSERT with this VIN would violate the UNIQUE constraint. */
  predicate VinTaken(vehicles: map<int, Vehicle>, vin: string)
  {
    exists id :: id in vehicles && vehicles[id].vin == vin
  }

  /** INSERT INTO customers: the row gets the next AUTOINCREMENT id. */
  function InsertCustomer(t: Tables, c: Customer): Tables
  {
    t.(customers := t.customers[t.customerSeq + 1 := c], customerSeq := t.customerSeq + 1)
  }

  /** INSERT INTO vehicles. */
  function InsertVehicle(t: Tables, v: Vehicle): Tables
  {
    t.(vehicles := t.vehicles[t.vehicleSeq + 1 := v], vehicleSeq := t.vehicleSeq + 1)
  }

  /** INSERT INTO appointments. */
  function InsertAppointment(t: Tables, a: Appointment): Tables
  {
    t.(appointments := t.appointments[t.appointmentSeq + 1 := a], appointmentSeq := t.appointmentSeq + 1)
  }

  /** One more inserted row is one more id, holding that row. */
  lemma NumberedSnoc<T>(rows: seq<T>, row: T)
    ensures Numbered(rows + [row]) == Numbered(rows)[|rows| + 1 := row]
  {
    assert (rows + [row])[..|rows|] == rows;
  }

  /** A table numbered from `rows` holds ids 1..|rows| and nothing else, id k
      holding the k-th row. */
  lemma {:induction false} NumberedAt<T>(rows: seq<T>)
    ensures forall id :: id in Numbered(rows) <==> 1 <= id <= |rows|
    ensures forall id :: 1 <= id <= |rows| ==> Numbered(rows)[id] == rows[id - 1]
  {
    if rows != [] {
      NumberedAt(rows[..|rows| - 1]);
    }
  }

  /** A table numbered from `rows` holds exactly |rows| rows. */
  lemma {:induction false} NumberedSize<T>(rows: seq<T>)
    ensures |Numbered(rows)| == |rows|
  {
    if rows != [] {
      var init := rows[..|rows| - 1];
      NumberedSize(init);
      NumberedAt(init);
      assert |rows| !in Numbered(init);
    }
  }
}
