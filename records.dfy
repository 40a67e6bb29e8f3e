/**
 * The documents the controllers read and write, and the collections that
 * hold them. A collection is an object whose one field the controllers
 * reassign; lookups by `_id` are map lookups.
 */
module Records {
  import opened Wrappers

  /**
   * An appointment document. `status` is not written by the controllers
   * shown; the patient page sets it to "cancelled" locally and reads it, so
   * it is "" when absent. Times (`cancelledAt`, `completedAt`) are minutes
   * on an abstract clock.
   */
  datatype Appointment = Appointment(
    id: string,
    userId: string,
    docId: string,
    slotDate: string,
    slotTime: string,
    amount: Option<int>,
    payment: bool,
    cancelled: bool,
    isCompleted: bool,
    cancelledAt: Option<int>,
    completedAt: Option<int>,
    cancellationReason: Option<string>,
    status: string)

  /** An appointment is never both cancelled and completed. */
  predicate StatusConsistent(a: Appointment) {
    !(a.cancelled && a.isCompleted)
  }

  /** Every appointment of a collection keeps the status invariant. */
  predicate AllConsistent(appointments: map<string, Appointment>) {
    forall id :: id in appointments ==> StatusConsistent(appointments[id])
  }

  /** A doctor document, with the booked-slot ledger: date key to booked `HH:MM` times. */
  datatype Doctor = Doctor(
    id: string,
    name: string,
    email: string,
    password: string,
    image: string,
    speciality: string,
    degree: string,
    education: string,
    experience: string,
    about: string,
    fees: int,
    address: map<string, string>,
    phone: string,
    available: bool,
    slotsBooked: map<string, seq<string>>,
    date: int)

  /** A user (patient) document; `password` holds the bcrypt hash. */
  datatype User = User(id: string, name: string, email: string, password: string)

  /** The appointments collection, by `_id`. */
  class AppointmentStore {
    var appointments: map<string, Appointment>

    constructor (initial: map<string, Appointment>)
      ensures appointments == initial
    {
      appointments := initial;
    }
  }

  /** The doctors collection, by `_id`. */
  class DoctorStore {
    var doctors: map<string, Doctor>

    constructor (initial: map<string, Doctor>)
      ensures doctors == initial
    {
      doctors := initial;
    }
  }

  /** The users collection, in insertion order. */
  class UserStore {
    var users: seq<User>

    constructor (initial: seq<User>)
      ensures users == initial
    {
      users := initial;
    }
  }
}
