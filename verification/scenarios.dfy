/** Concrete runs of the booking engine on a small store: client 1 and
    client 3, nutritionists 2 and 4, and one free slot 5 owned by
    nutritionist 2. */
module Scenarios {
  import opened Results
  import opened Db
  import opened Appointments

  const Start := Store(
    map[1 := User("ana@x", Some("Ana"), "h1", Client, 0),
        2 := User("nina@x", None, "h2", Nutritionist, 0),
        3 := User("caio@x", None, "h3", Client, 0),
        4 := User("nuno@x", None, "h4", Nutritionist, 0)],
    map[5 := Availability(2, 20250101, 900, 1000, false)],
    map[],
    5, 1)

  /** Booking the free slot succeeds with a SCHEDULED appointment and flags
      the slot; a second client is then turned away, a foreign nutritionist
      cannot confirm, the owner can confirm once, and the slot stays booked. */
  lemma BookThenConfirm()
    ensures Wf(Start) && BookedIff(Start)
    ensures Create(Start, 1, 5, 7).Ok?
    ensures
      var (st1, aid) := Create(Start, 1, 5, 7).value;
      && aid == 1
      && st1.appointments[aid].status == Scheduled
      && st1.slots[5].isBooked
      && Create(st1, 3, 5, 8) == Err(BadRequest)
      && Confirm(st1, aid, 4) == Err(Forbidden)
      && Confirm(st1, aid, 2).Ok?
      && Confirm(st1, aid, 2).value.slots[5].isBooked
      && Confirm(Confirm(st1, aid, 2).value, aid, 2) == Err(BadRequest)
  {
    assert !Linked(Start, 5);
    var (st1, aid) := Create(Start, 1, 5, 7).value;
    assert Linked(st1, 5) by { assert st1.appointments[1].availabilityId == 5; }
  }

  /** Another client cannot cancel; the owner can, which frees the flag, but
      the slot cannot be booked again because the cancelled row still
      references it. */
  lemma BookThenCancel()
    ensures Create(Start, 1, 5, 7).Ok?
    ensures
      var (st1, aid) := Create(Start, 1, 5, 7).value;
      && Cancel(st1, aid, 3) == Err(Forbidden)
      && Cancel(st1, aid, 1).Ok?
      && !Cancel(st1, aid, 1).value.slots[5].isBooked
      && Create(Cancel(st1, aid, 1).value, 3, 5, 9) == Err(BadRequest)
  {
    assert !Linked(Start, 5);
  }
}
