/** The one-shot notices (Flask "flash" messages) the handlers leave for the
    next page, one constructor per message, each with its category. */
module Notices {

  /** The flash category. */
  datatype Level = Success | Error | Warning | Info

  datatype Notice =
    // guards
    | LoginRequired | AdminRequired
    // customer authentication
    | WelcomeBack | InvalidCredentials
    | PasswordsDiffer | PasswordTooShort | EmailInUse | Registered
    | LoggedOut
    // administrator authentication
    | AdminWelcome | InvalidAdminCredentials | AdminLoggedOut
    // profile
    | ProfileUpdated
    // vehicles
    | VehicleAdded | VehicleRejected
    // appointments
    | InvalidVehicle | AppointmentScheduled
    | AppointmentNotFound | AlreadyCancelled | CompletedNotCancellable | AppointmentCancelled
    | OnlyScheduledEditable | AppointmentUpdated
    // administrator deletes
    | CustomerNotFound | CustomerDeleted | CustomerDeleteFailed
    | VehicleNotFound | VehicleDeleted | VehicleDeleteFailed
  {
    /** The category each message is flashed with. */
    function Category(): Level
    {
      match this
      case WelcomeBack | Registered | AdminWelcome | ProfileUpdated | VehicleAdded | AppointmentScheduled
        | AppointmentCancelled | AppointmentUpdated | CustomerDeleted | VehicleDeleted => Success
      case LoginRequired | AdminRequired | AlreadyCancelled | CompletedNotCancellable
        | OnlyScheduledEditable => Warning
      case LoggedOut | AdminLoggedOut => Info
      case _ => Error
    }
  }
}
