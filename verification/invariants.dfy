/** The booking invariant across every operation: a slot is flagged
    `isBooked` exactly when an appointment that is not CANCELED references it,
    together with the schema's own guarantees (`Db.Inv`). Every operation of
    both services keeps it; a failed operation leaves the store as it was. */
module Invariants {
  import opened Results
  import opened Db
  import Appointments
  import Users

  lemma CreatePreservesBooked(st: Store, clientId: nat, availabilityId: nat, now: int)
    requires Inv(st)
    requires Appointments.Create(st, clientId, availabilityId, now).Ok?
    ensures Inv(Appointments.Create(st, clientId, availabilityId, now).value.0)
  {
    var (st', id) := Appointments.Create(st, clientId, availabilityId, now).value;
    forall sid | sid in st'.slots
      ensures st'.slots[sid].isBooked <==> HasLiveLink(st', sid)
    {
      if sid == availabilityId {
        assert st'.appointments[id].availabilityId == sid;
      } else {
        if HasLiveLink(st, sid) {
          var aid :| aid in st.appointments && st.appointments[aid].availabilityId == sid
                     && st.appointments[aid].status != Canceled;
          assert st'.appointments[aid] == st.appointments[aid];
        }
        if HasLiveLink(st', sid) {
          var aid :| aid in st'.appointments && st'.appointments[aid].availabilityId == sid
                     && st'.appointments[aid].status != Canceled;
          assert aid != id;
        }
      }
    }
  }

  lemma ConfirmPreservesBooked(st: Store, appointmentId: nat, nutritionistId: nat)
    requires Inv(st)
    requires Appointments.Confirm(st, appointmentId, nutritionistId).Ok?
    ensures Inv(Appointments.Confirm(st, appointmentId, nutritionistId).value)
  {
    var st' := Appointments.Confirm(st, appointmentId, nutritionistId).value;
    forall sid | sid in st'.slots
      ensures st'.slots[sid].isBooked <==> HasLiveLink(st', sid)
    {
      if HasLiveLink(st, sid) {
        var aid :| aid in st.appointments && st.appointments[aid].availabilityId == sid
                   && st.appointments[aid].status != Canceled;
        assert st'.appointments[aid].status != Canceled;
      }
      if HasLiveLink(st', sid) {
        var aid :| aid in st'.appointments && st'.appointments[aid].availabilityId == sid
                   && st'.appointments[aid].status != Canceled;
        assert st.appointments[aid].status != Canceled;
      }
    }
  }

  lemma CancelPreservesBooked(st: Store, appointmentId: nat, clientId: nat)
    requires Inv(st)
    requires Appointments.Cancel(st, appointmentId, clientId).Ok?
    ensures Inv(Appointments.Cancel(st, appointmentId, clientId).value)
  {
    var st' := Appointments.Cancel(st, appointmentId, clientId).value;
    var freed := st.appointments[appointmentId].availabilityId;
    forall sid | sid in st'.slots
      ensures st'.slots[sid].isBooked <==> HasLiveLink(st', sid)
    {
      if HasLiveLink(st', sid) {
        var aid :| aid in st'.appointments && st'.appointments[aid].availabilityId == sid
                   && st'.appointments[aid].status != Canceled;
        assert aid != appointmentId;
        assert st.appointments[aid] == st'.appointments[aid];
        assert sid != freed;
      }
      if sid != freed && HasLiveLink(st, sid) {
        var aid :| aid in st.appointments && st.appointments[aid].availabilityId == sid
                   && st.appointments[aid].status != Canceled;
        assert aid != appointmentId;
        assert st'.appointments[aid] == st.appointments[aid];
      }
    }
  }

  /** The user operations never touch slots or appointments. */
  lemma UserChangePreservesBooked(st: Store, st': Store)
    requires Inv(st)
    requires st'.slots == st.slots && st'.appointments == st.appointments
    requires st'.nextAppointmentId == st.nextAppointmentId
    requires forall id :: id in st'.users ==> id < st'.nextUserId
    ensures Inv(st')
  {
  }

  /** One request to either service. Caller ids come from the authenticated
      identity; `now` is the database clock. */
  datatype Command =
    | BookSlot(clientId: nat, availabilityId: nat, now: int)
    | ConfirmAppointment(appointmentId: nat, nutritionistId: nat)
    | CancelAppointment(appointmentId: nat, clientId: nat)
    | RegisterUser(dto: Users.NewUser, now: int)
    | UpdateUser(userId: nat, patch: Users.UserPatch)
    | DeleteUser(userId: nat)
    | PromoteUser(userId: nat)

  /** The store after one request: the operation's new store on success,
      the old store on any failure. */
  function Apply(st: Store, cmd: Command, hash: string -> string): (st': Store)
    requires Inv(st)
    ensures Inv(st')
  {
    match cmd
    case BookSlot(c, s, now) =>
      var r := Appointments.Create(st, c, s, now);
      if r.Ok? then CreatePreservesBooked(st, c, s, now); r.value.0 else st
    case ConfirmAppointment(a, n) =>
      var r := Appointments.Confirm(st, a, n);
      if r.Ok? then ConfirmPreservesBooked(st, a, n); r.value else st
    case CancelAppointment(a, c) =>
      var r := Appointments.Cancel(st, a, c);
      if r.Ok? then CancelPreservesBooked(st, a, c); r.value else st
    case RegisterUser(dto, now) =>
      var st' := Users.Create(st, dto, hash, now).0;
      UserChangePreservesBooked(st, st'); st'
    case UpdateUser(u, patch) =>
      var r := Users.Update(st, u, patch, hash);
      if r.Ok? then UserChangePreservesBooked(st, r.value.0); r.value.0 else st
    case DeleteUser(u) =>
      var r := Users.Delete(st, u);
      if r.Ok? then UserChangePreservesBooked(st, r.value); r.value else st
    case PromoteUser(u) =>
      var r := Users.Promote(st, u);
      if r.Ok? then UserChangePreservesBooked(st, r.value.0); r.value.0 else st
  }

  /** The store after a sequence of requests, one after another. */
  function Run(st: Store, cmds: seq<Command>, hash: string -> string): (st': Store)
    requires Inv(st)
    ensures Inv(st')
    decreases |cmds|
  {
    if |cmds| == 0 then st else Run(Apply(st, cmds[0], hash), cmds[1..], hash)
  }
}
