/** The per-browser session: which customer is signed in and whether the
    administrator credentials were given, with the guards that read it and
    the handlers that change nothing but it. */
module Sessions {
  import opened Schema
  import opened Notices

  /** The session's keys; an absent key is `None` (or `false` for the flag,
      whose only stored value is True). */
  datatype SessionData = SessionData(
    customerId: Option<int>, customerName: Option<string>, adminAuthenticated: bool)

  /** A session with no keys. */
  const Anonymous := SessionData(None, None, false)

  /** Result of a handler that touches only the session. */
  datatype SessionStep = SessionStep(session: SessionData, notice: Notice)

  /** The hard-coded administrator credentials. */
  const AdminUsername := "admin"
  const AdminPassword := "admin123"

  /** `login_required`: a customer handler runs only when customer_id is set. */
  predicate CustomerSignedIn(s: SessionData)
  {
    s.customerId.Some?
  }

  /** `admin_required`: an administrator handler runs only when the flag is set. */
  predicate AdminSignedIn(s: SessionData)
  {
    s.adminAuthenticated
  }

  /** The display name stored in the session: first and last name joined
      by one space. */
  function DisplayName(firstName: string, lastName: string): string
  {
    firstName + " " + lastName
  }

  /** A customer row's display name. */
  function FullName(c: Customer): string
  {
    DisplayName(c.firstName, c.lastName)
  }

  /** Storing a customer's id and name after login or registration. */
  function SignedIn(s: SessionData, id: int, name: string): (r: SessionData)
    ensures CustomerSignedIn(r) && r.customerId == Some(id) && r.customerName == Some(name)
    ensures r.adminAuthenticated == s.adminAuthenticated
  {
    s.(customerId := Some(id), customerName := Some(name))
  }

  /** `logout`: the whole session is cleared, the administrator flag too. */
  function LogoutStep(s: SessionData): (r: SessionStep)
    ensures !CustomerSignedIn(r.session) && !AdminSignedIn(r.session) && r.session.customerName.None?
    ensures r.notice.Category() == Info
  {
    SessionStep(Anonymous, LoggedOut)
  }

  /** `admin_login`: the flag is set exactly for the fixed credential pair;
      otherwise the session is left as it was. */
  function AdminLoginStep(s: SessionData, username: string, password: string): (r: SessionStep)
    ensures AdminSignedIn(r.session) <==> (username == AdminUsername && password == AdminPassword) || AdminSignedIn(s)
    ensures r.notice == AdminWelcome <==> username == AdminUsername && password == AdminPassword
    ensures r.notice != AdminWelcome ==> r.session == s
    ensures r.session.customerId == s.customerId && r.session.customerName == s.customerName
  {
    if username == AdminUsername && password == AdminPassword then
      SessionStep(s.(adminAuthenticated := true), AdminWelcome)
    else
      SessionStep(s, InvalidAdminCredentials)
  }

  /** `admin_logout`: drops the flag only; a signed-in customer stays signed in. */
  function AdminLogoutStep(s: SessionData): (r: SessionStep)
    ensures !AdminSignedIn(r.session)
    ensures r.session.customerId == s.customerId && r.session.customerName == s.customerName
    ensures r.notice.Category() == Info
  {
    SessionStep(s.(adminAuthenticated := false), AdminLoggedOut)
  }

  /** The session object the framework hands every request; the handlers
      update its keys in place. */
  class Session {
    var customerId: Option<int>
    var customerName: Option<string>
    var adminAuthenticated: bool

    function Data(): SessionData
      reads this
    {
      SessionData(customerId, customerName, adminAuthenticated)
    }

    /** A new browser starts with an empty session. */
    constructor ()
      ensures Data() == Anonymous
    {
      customerId, customerName, adminAuthenticated := None, None, false;
    }

    /** `session['customer_id'] = ...; session['customer_name'] = ...` */
    method SignIn(id: int, name: string)
      modifies this
      ensures Data() == SignedIn(old(Data()), id, name)
    {
      customerId := Some(id);
      customerName := Some(name);
    }

    /** `logout`: `session.clear()`. */
    method Logout() returns (notice: Notice)
      modifies this
      ensures SessionStep(Data(), notice) == LogoutStep(old(Data()))
    {
      customerId := None;
      customerName := None;
      adminAuthenticated := false;
      notice := LoggedOut;
    }

    /** `admin_login`. */
    method AdminLogin(username: string, password: string) returns (notice: Notice)
      modifies this
      ensures SessionStep(Data(), notice) == AdminLoginStep(old(Data()), username, password)
    {
      if username == AdminUsername && password == AdminPassword {
        adminAuthenticated := true;
        notice := AdminWelcome;
      } else {
        notice := InvalidAdminCredentials;
      }
    }

    /** `admin_logout`: `session.pop('admin_authenticated', None)`. */
    method AdminLogout() returns (notice: Notice)
      modifies this
      ensures SessionStep(Data(), notice) == AdminLogoutStep(old(Data()))
    {
      adminAuthenticated := false;
      notice := AdminLoggedOut;
    }
  }
}
