/** The booking engine of the appointments service: `create`,
    `confirmAppointment` and `cancelAppointment`. Each is a chain of lookups
    and guards; the first failing guard raises and nothing is written, and
    otherwise the writes of one transaction replace the store at once.
    E-mail notifications happen after the transaction and never affect the
    store, so they are not part of the model. */
module Appointments {
  import opened Results
  import opened Db

  /** The owner of the slot that appointment `aid` reserves. */
  function SlotOwner(st: Store, aid: nat): (owner: nat)
    requires SlotsExist(st) && aid in st.appointments
  {
    st.slots[st.appointments[aid].availabilityId].nutritionistId
  }

  /** `create(clientId, { availabilityId })`: a client reserves a free slot.
      A new appointment row (status SCHEDULED by the schema's default,
      stamped `now`) and the slot's `isBooked := true` are written together.
      Returns the new store and the new appointment's id. */
  function Create(st: Store, clientId: nat, availabilityId: nat, now: int): (r: Result<(Store, nat)>)
    requires Wf(st)
    ensures r.Ok? <==>
              && clientId in st.users && st.users[clientId].role == Client
              && availabilityId in st.slots
              && !st.slots[availabilityId].isBooked && !Linked(st, availabilityId)
    ensures r == Err(NotFound) <==>
              || clientId !in st.users
              || (st.users[clientId].role == Client && availabilityId !in st.slots)
    ensures r == Err(BadRequest) <==>
              && clientId in st.users
              && (|| st.users[clientId].role != Client
                  || (availabilityId in st.slots
                      && (st.slots[availabilityId].isBooked || Linked(st, availabilityId))))
    ensures r.Ok? ==>
              var (st', id) := r.value;
              && id !in st.appointments
              && st'.appointments == st.appointments[id := Appointment(clientId, availabilityId, Scheduled, now)]
              && st'.slots == st.slots[availabilityId := st.slots[availabilityId].(isBooked := true)]
              && st'.users == st.users
              && Wf(st')
  {
    if clientId !in st.users then Err(NotFound)
    else if st.users[clientId].role != Client then Err(BadRequest)
    else if availabilityId !in st.slots then Err(NotFound)
    else if st.slots[availabilityId].isBooked || Linked(st, availabilityId) then Err(BadRequest)
    else
      var id := st.nextAppointmentId;
      var st' := st.(
        appointments := st.appointments[id := Appointment(clientId, availabilityId, Scheduled, now)],
        slots := st.slots[availabilityId := st.slots[availabilityId].(isBooked := true)],
        nextAppointmentId := id + 1);
      Ok((st', id))
  }

  /** `confirmAppointment(appointmentId, nutritionistId)`: the nutritionist
      who owns the slot marks a SCHEDULED appointment COMPLETED. The slot is
      not touched: it stays booked. */
  function Confirm(st: Store, appointmentId: nat, nutritionistId: nat): (r: Result<Store>)
    requires Wf(st)
    ensures r.Ok? <==>
              && appointmentId in st.appointments
              && SlotOwner(st, appointmentId) == nutritionistId
              && st.appointments[appointmentId].status == Scheduled
    ensures r == Err(NotFound) <==> appointmentId !in st.appointments
    ensures r == Err(Forbidden) <==>
              appointmentId in st.appointments && SlotOwner(st, appointmentId) != nutritionistId
    ensures r == Err(BadRequest) <==>
              && appointmentId in st.appointments
              && SlotOwner(st, appointmentId) == nutritionistId
              && st.appointments[appointmentId].status != Scheduled
    ensures r.Ok? ==>
              r.value == st.(appointments :=
                st.appointments[appointmentId := st.appointments[appointmentId].(status := Completed)])
    ensures r.Ok? ==> Wf(r.value)
  {
    if appointmentId !in st.appointments then Err(NotFound)
    else if SlotOwner(st, appointmentId) != nutritionistId then Err(Forbidden)
    else if st.appointments[appointmentId].status != Scheduled then Err(BadRequest)
    else
      var a := st.appointments[appointmentId];
      Ok(st.(appointments := st.appointments[appointmentId := a.(status := Completed)]))
  }

  /** `cancelAppointment(appointmentId, clientId)`: the client who made a
      SCHEDULED appointment cancels it. In one transaction the status becomes
      CANCELED and the slot's `isBooked` becomes false; the appointment row is
      kept, so it still references the slot. */
  function Cancel(st: Store, appointmentId: nat, clientId: nat): (r: Result<Store>)
    requires Wf(st)
    ensures r.Ok? <==>
              && appointmentId in st.appointments
              && st.appointments[appointmentId].clientId == clientId
              && st.appointments[appointmentId].status == Scheduled
    ensures r == Err(NotFound) <==> appointmentId !in st.appointments
    ensures r == Err(Forbidden) <==>
              appointmentId in st.appointments && st.appointments[appointmentId].clientId != clientId
    ensures r == Err(BadRequest) <==>
              && appointmentId in st.appointments
              && st.appointments[appointmentId].clientId == clientId
              && st.appointments[appointmentId].status != Scheduled
    ensures r.Ok? ==>
              var sid := st.appointments[appointmentId].availabilityId;
              && r.value.appointments ==
                   st.appointments[appointmentId := st.appointments[appointmentId].(status := Canceled)]
              && r.value.slots == st.slots[sid := st.slots[sid].(isBooked := false)]
              && r.value.users == st.users
              && Linked(r.value, sid)
              && Wf(r.value)
  {
    if appointmentId !in st.appointments then Err(NotFound)
    else if st.appointments[appointmentId].clientId != clientId then Err(Forbidden)
    else if st.appointments[appointmentId].status != Scheduled then Err(BadRequest)
    else
      var a := st.appointments[appointmentId];
      var st' := st.(
        appointments := st.appointments[appointmentId := a.(status := Canceled)],
        slots := st.slots[a.availabilityId := st.slots[a.availabilityId].(isBooked := false)]);
      assert st'.appointments[appointmentId].availabilityId == a.availabilityId;
      Ok(st')
  }
}

/** Consequences of the booking engine's contracts over sequences of calls. */
module BookingLemmas {
  import opened Results
  import opened Db
  import opened Appointments

  /** Once a slot is reserved, any other client's `create` on it is rejected
      as already booked. */
  lemma BookedSlotRejectsOthers(st: Store, c1: nat, c2: nat, sid: nat, now1: int, now2: int)
    requires Wf(st)
    requires Create(st, c1, sid, now1).Ok?
    requires c2 in st.users && st.users[c2].role == Client
    ensures Create(Create(st, c1, sid, now1).value.0, c2, sid, now2) == Err(BadRequest)
  {
  }

  /** Confirming is not repeatable, and a confirmed appointment can no
      longer be cancelled by its client. */
  lemma ConfirmIsFinal(st: Store, aid: nat, nid: nat)
    requires Wf(st)
    requires Confirm(st, aid, nid).Ok?
    ensures Confirm(Confirm(st, aid, nid).value, aid, nid) == Err(BadRequest)
    ensures Cancel(Confirm(st, aid, nid).value, aid, st.appointments[aid].clientId) == Err(BadRequest)
  {
  }

  /** Cancelling is not repeatable, and a cancelled appointment can no
      longer be confirmed by the slot's owner. */
  lemma CancelIsFinal(st: Store, aid: nat, cid: nat)
    requires Wf(st)
    requires Cancel(st, aid, cid).Ok?
    ensures Cancel(Cancel(st, aid, cid).value, aid, cid) == Err(BadRequest)
    ensures Confirm(Cancel(st, aid, cid).value, aid, SlotOwner(st, aid)) == Err(BadRequest)
  {
  }

  /** As written, a cancelled slot is flagged free but cannot be booked again:
      the cancelled appointment row still references it, and `create`
      rejects any slot with a linked appointment. */
  lemma CanceledSlotStaysTaken(st: Store, c1: nat, c2: nat, sid: nat, now1: int, now2: int)
    requires Wf(st)
    requires Create(st, c1, sid, now1).Ok?
    requires c2 in st.users && st.users[c2].role == Client
    ensures
      var (st1, aid) := Create(st, c1, sid, now1).value;
      var r := Cancel(st1, aid, c1);
      && r.Ok?
      && !r.value.slots[sid].isBooked
      && Create(r.value, c2, sid, now2) == Err(BadRequest)
  {
  }
}
