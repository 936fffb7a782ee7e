/** The sample rows the setup script loads into a fresh database, and the
    properties of the store it starts from. */
module Seed {
  import opened Schema
  import opened Sessions
  import Dashboard

  /** The service catalogue; no row gives `is_active`, so all take the
      column default 1. */
  const Services: seq<Service> := [
    Catalogue("Oil Change", "Regular oil and filter change", 30, 4999),
    Catalogue("Brake Inspection", "Complete brake system inspection", 45, 7500),
    Catalogue("Tire Rotation", "Rotate tires for even wear", 30, 3500),
    Catalogue("Battery Test", "Battery and charging system test", 20, 2500),
    Catalogue("General Inspection", "Comprehensive vehicle inspection", 60, 9999),
    Catalogue("Air Filter Replacement", "Replace engine air filter", 15, 2999),
    Catalogue("Transmission Service", "Transmission fluid change and inspection", 90, 14999),
    Catalogue("Cooling System Service", "Coolant flush and system check", 60, 8999)
  ]

  /** A service inserted with name, description, duration and price only. */
  function Catalogue(name: string, description: string, minutes: int, priceCents: int): Service
  {
    Service(name, description, minutes, priceCents, DefaultActive)
  }

  /** The sample customers, all with the digest of "password123". */
  function Customers(hash: string -> string): seq<Customer>
  {
    [ Customer("John", "Doe", "john.doe@email.com", hash("password123"), "555-0123", "123 Main St, Anytown, ST 12345"),
      Customer("Jane", "Smith", "jane.smith@email.com", hash("password123"), "555-0124", "456 Oak Ave, Somewhere, ST 12346"),
      Customer("Bob", "Johnson", "bob.johnson@email.com", hash("password123"), "555-0125", "789 Pine Rd, Elsewhere, ST 12347") ]
  }

  /** The sample vehicles; the first column is the owner's customer id. */
  const Vehicles: seq<Vehicle> := [
    Vehicle(1, "Toyota", "Camry", 2020, "JT2BF22K5X0123456", "ABC-123", "Silver", Some(25000)),
    Vehicle(1, "Honda", "Civic", 2018, "JHMFC2F59JX987654", "XYZ-789", "Blue", Some(45000)),
    Vehicle(2, "Ford", "F-150", 2021, "1FTFW1E51MFA12345", "DEF-456", "Red", Some(15000)),
    Vehicle(3, "Chevrolet", "Malibu", 2019, "1G1ZB5ST8KF123456", "GHI-012", "White", Some(32000))
  ]

  /** The sample appointments: customer, vehicle and service ids, date, time,
      status and notes (NULL for the third). */
  const Appointments: seq<Appointment> := [
    Appointment(1, 1, 1, "2025-01-15", "09:00", Scheduled, Some("Regular maintenance")),
    Appointment(2, 3, 2, "2025-01-16", "10:30", Scheduled, Some("Customer reported squeaking")),
    Appointment(3, 4, 3, "2025-01-17", "14:00", Scheduled, None)
  ]

  /** The database right after the setup script: each table holds its rows
      numbered from 1 in list order. */
  function Initial(hash: string -> string): Tables
  {
    Tables(
      Numbered(Customers(hash)), |Customers(hash)|,
      Numbered(Vehicles), |Vehicles|,
      Numbered(Services), |Services|,
      Numbered(Appointments), |Appointments|)
  }

  /** The sample emails are pairwise distinct, as customers.email UNIQUE demands. */
  lemma EmailsDistinct(hash: string -> string)
    ensures UniqueEmails(Initial(hash).customers)
  {
    var rows := Customers(hash);
    NumberedAt(rows);
    assert |rows[0].email| == 18 && |rows[1].email| == 20 && |rows[2].email| == 21;
  }

  /** The sample VINs are pairwise distinct, and each vehicle's owner is one
      of the customers 1..3 the customer inserts numbered. */
  lemma VehiclesWellFormed(hash: string -> string)
    ensures UniqueVins(Initial(hash).vehicles)
    ensures forall id :: id in Initial(hash).vehicles ==>
      1 <= Initial(hash).vehicles[id].customerId <= 3 && Initial(hash).vehicles[id].customerId in Initial(hash).customers
  {
    NumberedAt(Vehicles);
    NumberedAt(Customers(hash));
    var vins := [Vehicles[0].vin, Vehicles[1].vin, Vehicles[2].vin, Vehicles[3].vin];
    assert vins[0][1] == 'T' && vins[1][1] == 'H' && vins[2][1] == 'F' && vins[3][1] == 'G';
    assert vins[0][0] == 'J' && vins[1][0] == 'J' && vins[2][0] == '1' && vins[3][0] == '1';
  }

  /** Every sample appointment's vehicle belongs to the appointment's
      customer, so the ownership invariant holds from the start. */
  lemma OwnershipHolds(hash: string -> string)
    ensures VehiclesMatchOwners(Initial(hash))
  {
    NumberedAt(Vehicles);
    NumberedAt(Appointments);
  }

  /** The setup script leaves a database satisfying every invariant. */
  lemma InitialValid(hash: string -> string)
    ensures Valid(Initial(hash))
  {
    NumberedAt(Customers(hash));
    NumberedAt(Vehicles);
    NumberedAt(Services);
    NumberedAt(Appointments);
    EmailsDistinct(hash);
    VehiclesWellFormed(hash);
    OwnershipHolds(hash);
  }

  /** 3 customers, 4 vehicles, 8 services, 3 appointments; every service is
      active and every appointment scheduled. */
  lemma InitialContents(hash: string -> string)
    ensures var t := Initial(hash);
      && |t.customers| == 3 && |t.vehicles| == 4 && |t.services| == 8 && |t.appointments| == 3
      && (forall id :: id in t.services ==> t.services[id].isActive)
      && (forall id :: id in t.appointments ==> t.appointments[id].status == Scheduled)
  {
    NumberedSize(Customers(hash));
    NumberedSize(Vehicles);
    NumberedSize(Services);
    NumberedSize(Appointments);
    NumberedAt(Services);
    NumberedAt(Appointments);
  }

  /** What the administrator dashboard shows on the fresh database. */
  lemma InitialDashboard(hash: string -> string)
    ensures Dashboard.AdminDashboard(Initial(hash), SessionData(None, None, true))
         == Some(Dashboard.Stats(3, 4, 3, 3, 0, 0, 0, 8))
  {
    var t := Initial(hash);
    InitialContents(hash);
    NumberedAt(Appointments);
    NumberedAt(Services);
    forall id | id in t.appointments ensures id in Dashboard.WithStatus(t.appointments, Scheduled) {
      assert t.appointments[id].status == Scheduled;
    }
    assert Dashboard.WithStatus(t.appointments, Scheduled) == t.appointments.Keys;
    assert Dashboard.WithStatus(t.appointments, InProgress) == {};
    assert Dashboard.WithStatus(t.appointments, Completed) == {};
    assert Dashboard.WithStatus(t.appointments, Cancelled) == {};
    forall id | id in t.services ensures id in (set k | k in t.services && t.services[k].isActive) {
      assert t.services[id].isActive;
    }
    assert (set id | id in t.services && t.services[id].isActive) == t.services.Keys;
  }
}
