/** The persisted state the services read and write: users, availability
    slots and appointments, each table a map from its primary key to its row.
    One Prisma `$transaction` is one replacement of the whole `Store`. */
module Db {
  import opened Results

  datatype Role = Client | Nutritionist | Admin

  datatype Status = Scheduled | Completed | Canceled

  /** A user row; `password` holds whatever the service stored (a hash). */
  datatype User = User(email: string, name: Option<string>, password: string, role: Role, createdAt: int)

  /** A bookable slot; dates and times are opaque ordered instants. */
  datatype Availability = Availability(nutritionistId: nat, date: int, startTime: int, endTime: int, isBooked: bool)

  datatype Appointment = Appointment(clientId: nat, availabilityId: nat, status: Status, createdAt: int)

  /** The database. `nextUserId` and `nextAppointmentId` are the
      autoincrement sequences that hand out primary keys. */
  datatype Store = Store(
    users: map<nat, User>,
    slots: map<nat, Availability>,
    appointments: map<nat, Appointment>,
    nextUserId: nat,
    nextAppointmentId: nat)

  /** Some appointment row references slot `sid` (the slot's one-to-one
      `appointment` relation is not null). */
  predicate Linked(st: Store, sid: nat) {
    exists aid :: aid in st.appointments && st.appointments[aid].availabilityId == sid
  }

  /** Some appointment that is not CANCELED references slot `sid`. */
  predicate HasLiveLink(st: Store, sid: nat) {
    exists aid :: aid in st.appointments && st.appointments[aid].availabilityId == sid
                  && st.appointments[aid].status != Canceled
  }

  /** Foreign key: every appointment references an existing slot. */
  ghost predicate SlotsExist(st: Store) {
    forall aid :: aid in st.appointments ==> st.appointments[aid].availabilityId in st.slots
  }

  /** Unique index on `availabilityId`: at most one appointment per slot. */
  ghost predicate UniqueLink(st: Store) {
    forall a1, a2 ::
      (a1 in st.appointments && a2 in st.appointments
       && st.appointments[a1].availabilityId == st.appointments[a2].availabilityId) ==> a1 == a2
  }

  /** The autoincrement sequences are ahead of every key already used. */
  ghost predicate FreshCounters(st: Store) {
    && (forall id :: id in st.users ==> id < st.nextUserId)
    && (forall id :: id in st.appointments ==> id < st.nextAppointmentId)
  }

  /** What the database schema itself guarantees of every store. */
  ghost predicate Wf(st: Store) {
    SlotsExist(st) && UniqueLink(st) && FreshCounters(st)
  }

  /** The booking invariant: a slot is flagged booked exactly when an
      appointment that is not CANCELED references it. */
  ghost predicate BookedIff(st: Store) {
    forall sid :: sid in st.slots ==> (st.slots[sid].isBooked <==> HasLiveLink(st, sid))
  }

  ghost predicate Inv(st: Store) {
    Wf(st) && BookedIff(st)
  }
}
