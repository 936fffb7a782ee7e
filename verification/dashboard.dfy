/** The overview counts on the administrator dashboard. */
module Dashboard {
  import opened Schema
  import opened Sessions
  import opened Notices
  import Booking

  /** The counts the dashboard shows; the count of customers created in the
      last thirty days is not part of this model. */
  datatype Stats = Stats(
    totalCustomers: nat, totalVehicles: nat, totalAppointments: nat,
    scheduled: nat, inProgress: nat, completed: nat, cancelled: nat,
    activeServices: nat)

  /** The ids of the appointments with the given status. */
  function WithStatus(appointments: map<int, Appointment>, status: Status): set<int>
  {
    set id | id in appointments && appointments[id].status == status
  }

  /** `COUNT(CASE WHEN status = ... THEN 1 END)`. */
  function CountStatus(appointments: map<int, Appointment>, status: Status): nat
  {
    |WithStatus(appointments, status)|
  }

  /** `SELECT COUNT(*) FROM services WHERE is_active = 1`. */
  function ActiveServices(services: map<int, Service>): nat
  {
    |set id | id in services && services[id].isActive|
  }

  /** `admin_dashboard`: the counts, or nothing when the session lacks the
      administrator flag (the guard then redirects with a warning). */
  function AdminDashboard(t: Tables, s: SessionData): Option<Stats>
  {
    if !AdminSignedIn(s) then None
    else Some(Stats(
      |t.customers|, |t.vehicles|, |t.appointments|,
      CountStatus(t.appointments, Scheduled), CountStatus(t.appointments, InProgress),
      CountStatus(t.appointments, Completed), CountStatus(t.appointments, Cancelled),
      ActiveServices(t.services)))
  }

  /** |A + B| is |A| + |B| for disjoint A and B. */
  lemma DisjointUnionSize(a: set<int>, b: set<int>)
    requires a * b == {}
    ensures |a + b| == |a| + |b|
  {
  }

  /** Every appointment has exactly one of the four statuses. */
  lemma {:induction false} StatusPartition(m: map<int, Appointment>)
    ensures CountStatus(m, Scheduled) + CountStatus(m, InProgress)
          + CountStatus(m, Completed) + CountStatus(m, Cancelled) == |m|
  {
    var a, b, c, d := WithStatus(m, Scheduled), WithStatus(m, InProgress),
                      WithStatus(m, Completed), WithStatus(m, Cancelled);
    DisjointUnionSize(a, b);
    DisjointUnionSize(a + b, c);
    DisjointUnionSize(a + b + c, d);
    forall id | id in m.Keys ensures id in a + b + c + d {
      match m[id].status
      case Scheduled => assert id in a;
      case InProgress => assert id in b;
      case Completed => assert id in c;
      case Cancelled => assert id in d;
    }
    assert a + b + c + d == m.Keys;
  }

  /** The four status counts add up to the number of appointments. */
  lemma StatusCountsAddUp(t: Tables, s: SessionData)
    requires AdminSignedIn(s)
    ensures var st := AdminDashboard(t, s).value;
      st.scheduled + st.inProgress + st.completed + st.cancelled == st.totalAppointments
  {
    StatusPartition(t.appointments);
  }

  /** A successful cancellation moves one appointment from its old status's
      count to the cancelled count and leaves every other count alone. */
  lemma CancelShiftsCounts(t: Tables, s: SessionData, id: int)
    requires CustomerSignedIn(s)
    requires Booking.CancelAppointment(t, s, id).notice == AppointmentCancelled
    ensures var before := t.appointments;
      var after := Booking.CancelAppointment(t, s, id).tables.appointments;
      var was := before[id].status;
      && CountStatus(after, Cancelled) == CountStatus(before, Cancelled) + 1
      && CountStatus(after, was) + 1 == CountStatus(before, was)
      && forall st :: st != Cancelled && st != was ==> CountStatus(after, st) == CountStatus(before, st)
  {
    var before := t.appointments;
    var after := Booking.CancelAppointment(t, s, id).tables.appointments;
    var was := before[id].status;
    assert WithStatus(after, Cancelled) == WithStatus(before, Cancelled) + {id};
    assert WithStatus(after, was) == WithStatus(before, was) - {id};
    forall st | st != Cancelled && st != was
      ensures CountStatus(after, st) == CountStatus(before, st)
    {
      assert WithStatus(after, st) == WithStatus(before, st);
    }
  }
}
