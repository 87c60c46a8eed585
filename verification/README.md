# Appointment booking engine — a Dafny model

This project models the core of a NestJS nutrition-scheduling back end: the
appointment booking engine of `AppointmentsService` and the account
operations of `UsersService`.

- **Booking.** Clients reserve a nutritionist's availability slot (`create`).
  The owning nutritionist confirms the appointment (`confirmAppointment`),
  or the client cancels it (`cancelAppointment`).
- **Agenda.** Nutritionists page through their own agenda
  (`listNutritionistAgenda`).
- **Users.** Users are registered, looked up, updated, deleted and promoted
  to nutritionist.

## How the model is built

The database is an immutable `Db.Store`:

- one map per table, from primary key to row;
- two autoincrement counters that hand out new ids.

Each Prisma `$transaction` is one replacement of the whole store. So every
operation is a pure function from a store and its arguments to
`Result<…>`. `Ok` carries the new store and the output. `Err` carries one of
`NotFound`, `BadRequest` or `Forbidden`.

A failed operation returns no store, so it cannot have written anything.

Two invariants are kept separate:

- `Db.Wf` is what the database schema guarantees. Every appointment
  references an existing slot. `availabilityId` is unique. The counters are
  ahead of every key in use.
- `Db.BookedIff` is what the application logic must maintain. A slot's
  `isBooked` flag is true exactly when some appointment that is not
  CANCELED references the slot.

The booking transitions and user registration require `Db.Wf`. The source
relies on the foreign key when it reads `appointment.availability`, and on
the sequences when it inserts a row.

`Invariants.Apply` proves that every operation of both services preserves
`Wf && BookedIff`. `Invariants.Run` extends this to any sequence of
requests.

Two facts about the schema are assumptions, since the schema is not part of
this model:

- a new appointment starts SCHEDULED;
- a new user starts with role CLIENT.

### A quirk of the code

A cancelled slot is flagged free but can never be booked again:

- cancellation only changes the status and keeps the appointment row
  (`src/appointments/appointments.service.ts:280-294`);
- `create` rejects any slot that has a linked appointment
  (`src/appointments/appointments.service.ts:47`).

The model keeps this behaviour. `BookingLemmas.CanceledSlotStaysTaken` and
`Scenarios.BookThenCancel` state it.

## Model

| member | source | states |
|---|---|---|
| Appointments.Create | src/appointments/appointments.service.ts:19-68 | The guards run in order: missing client gives NotFound; a non-CLIENT gives BadRequest; a missing slot gives NotFound; a slot that is flagged booked OR has a linked appointment gives BadRequest (either alone suffices). Success adds exactly one appointment under a fresh id, SCHEDULED, for (client, slot). It sets only that slot's `isBooked`. Users are unchanged and the schema guarantees still hold. |
| Appointments.Confirm | src/appointments/appointments.service.ts:199-232 | Missing appointment gives NotFound. A caller who does not own the slot gives Forbidden. A status other than SCHEDULED gives BadRequest. Success changes only that appointment's status, to COMPLETED. Slots stay as they were, so the slot stays booked. |
| Appointments.Cancel | src/appointments/appointments.service.ts:255-294 | Missing appointment gives NotFound. A caller who is not the appointment's client gives Forbidden. A status other than SCHEDULED gives BadRequest. Success sets the status to CANCELED and that slot's `isBooked` to false in one step. The row is kept, so the slot stays linked. |
| BookingLemmas.BookedSlotRejectsOthers | src/appointments/appointments.service.ts:44-49 | After a successful booking, any other client's `create` on the same slot fails with BadRequest. |
| BookingLemmas.ConfirmIsFinal | src/appointments/appointments.service.ts:223-232 | After a confirmation, a second confirm fails with BadRequest. So does a cancel by the appointment's client. |
| BookingLemmas.CancelIsFinal | src/appointments/appointments.service.ts:277-294 | After a cancellation, a second cancel fails with BadRequest. So does a confirm by the slot's owner. |
| BookingLemmas.CanceledSlotStaysTaken | src/appointments/appointments.service.ts:280-294 | After a booking and its cancellation, the slot is flagged free. Any client's new `create` on it still fails with BadRequest. |
| Invariants.CreatePreservesBooked | src/appointments/appointments.service.ts:52-68 | A successful booking keeps "booked iff referenced by a non-cancelled appointment" and the schema guarantees. |
| Invariants.ConfirmPreservesBooked | src/appointments/appointments.service.ts:227-232 | A successful confirmation keeps the booking invariant. |
| Invariants.CancelPreservesBooked | src/appointments/appointments.service.ts:280-294 | A successful cancellation keeps the booking invariant. Uniqueness of `availabilityId` guarantees no other live appointment holds the freed slot. |
| Invariants.UserChangePreservesBooked | src/users/users.service.ts:85-164 | A change confined to the user table keeps the booking invariant. |
| Invariants.Apply | src/appointments/appointments.service.ts:19-294 | Every request to either service leaves a store that satisfies the invariant. This holds on success and on failure. |
| Invariants.Run | src/appointments/appointments.service.ts:19-294 | Any sequence of requests keeps the invariant. |
| Scenarios.BookThenConfirm | src/appointments/appointments.service.ts:19-232 | A concrete run. Client 1 books free slot 5 and gets a SCHEDULED appointment, and the slot becomes booked. Client 3 is then refused. A foreign nutritionist's confirm is Forbidden. The owner confirms once and the slot stays booked. A second confirm is BadRequest. |
| Scenarios.BookThenCancel | src/appointments/appointments.service.ts:255-294 | A concrete run. Another client's cancel is Forbidden. The owner's cancel frees the flag. A new booking of the slot is still BadRequest. |
| Agenda.WhereMeaning | src/appointments/appointments.service.ts:139-155 | A slot matches the agenda filter iff it belongs to the caller, and either (a) both range bounds are given and its date lies in the inclusive range, or (b) they are not both given and, when `date` is given, its date equals it. |
| Agenda.LoneBoundIgnored | src/appointments/appointments.service.ts:150-155 | A `startDate` without `endDate`, or the reverse, does not change the filter. |
| Agenda.RangeOverridesDate | src/appointments/appointments.service.ts:144-155 | When both range bounds are given, the exact `date` has no effect. |
| Agenda.ListAgenda | src/appointments/appointments.service.ts:133-196 | Page and limit default to 1 and 10. `total` is the number of matching slots, and `totalPages` is `Math.ceil(total / limit)`. The page is exactly the `skip`/`take` slice of the ordered result set at offset `Skip(page, limit)`. That offset is `(page - 1) * limit`, and the slice's length and contents are fixed by `Pagination.Page` and `Pagination.ListingShape`. The page holds at most `limit` rows. Each row is the caller's own slot and matches the filter. The page is in date-then-start-time order. The page is non-empty iff `page <= totalPages`. |
| Agenda.DistinctCount | src/appointments/appointments.service.ts:185 | A duplicate-free result set has as many rows as the set of ids it holds. This is why the count equals the number of listed rows. |
| Pagination.TotalPages | src/appointments/appointments.service.ts:194 | `Math.ceil(total / limit)`: the fewest pages of `limit` rows that hold `total` rows. |
| Pagination.Page | src/appointments/appointments.service.ts:157-164 | `skip`/`take` return at most `take` rows. These are the rows of the ordered result set starting at position `skip`. The page is empty past the end. |
| Pagination.FirstPagesArePrefix | src/appointments/appointments.service.ts:157-164 | Pages 1..n concatenated are the first `n * limit` rows. No row is skipped or repeated. |
| Pagination.AllPagesCoverRows | src/appointments/appointments.service.ts:157-194 | Pages 1..totalPages concatenated are exactly the result set. |
| Pagination.PageNonEmptyIff | src/appointments/appointments.service.ts:157-194 | Page `p` (p >= 1) is non-empty iff `p <= totalPages`. |
| Pagination.ListingShape | src/appointments/appointments.service.ts:157-194 | Page `p` of `limit` rows starts at offset `(p - 1) * limit` and holds at most `limit` rows. While that offset is inside the result set, it holds `min(limit, rows left)` rows. Row `i` of the page is row `offset + i` of the result set. The page is non-empty iff `p <= Math.ceil(total / limit)`. |
| Pagination.TwentyFiveRowsExample | src/appointments/appointments.service.ts:137-194 | 25 rows at the default limit 10 give 3 pages, and page 3 holds 5 rows. |
| Agenda.BuildWhere | src/appointments/appointments.service.ts:140-155 | The WHERE clause always restricts to the caller's slots. It is the inclusive range when both bounds are given. Otherwise it is the exact date when `date` is given, and otherwise any date. |
| Agenda.MatchingIds | src/appointments/appointments.service.ts:185 | The slots the count covers are exactly the stored slots that satisfy the WHERE clause. |
| Agenda.ResultCount | src/appointments/appointments.service.ts:159-186 | The count read in the same transaction equals the length of the ordered result set. |
| Agenda.PageOfResult | src/appointments/appointments.service.ts:160-164 | Every page of the ordered result set holds matching slots, in date-then-start-time order. |
| Pagination.ResolvePage | src/appointments/appointments.service.ts:137 | The page number is the supplied one, or 1 when it is absent. |
| Pagination.ResolveLimit | src/appointments/appointments.service.ts:137 | The page size is the supplied one, or 10 when it is absent. |
| Pagination.Skip | src/appointments/appointments.service.ts:157 | The offset is exactly `page - 1` whole pages, so page 1 starts at the first row. |
| Pagination.WholePages | src/appointments/appointments.service.ts:157 | `q` whole pages of `d` rows divide back into exactly `q` pages with no remainder. |
| Users.View | src/users/users.service.ts:70-77 | The projection holds the stored user's id, email, name, creation time and role, and has no password column. |
| Users.Views | src/users/users.service.ts:46-56 | The projections of a list of users, one per id and in the same order. |
| Users.NewPassword | src/users/users.service.ts:109-112 | An absent password keeps the stored one. A non-empty password is replaced by its hash. An empty password, being falsy, is written as given. |
| Users.Create | src/users/users.service.ts:18-39 | Registration adds exactly one user under a fresh id. The stored password is `hash(password)`, and the role is CLIENT. Nothing else changes. The returned projection has no password. |
| Users.ListOne | src/users/users.service.ts:68-83 | Missing id gives NotFound. Otherwise the result is the stored user's id, email, name, creation time and role, and no password. |
| Users.Delete | src/users/users.service.ts:85-100 | Missing id gives NotFound. Otherwise exactly that user is removed and every other user is unchanged. |
| Users.Update | src/users/users.service.ts:102-131 | Missing id gives NotFound. Email and name take the supplied value or keep the stored one. An absent password keeps the stored one. A non-empty password is replaced by its hash. An empty password is stored as given. Role and creation time never change, and no other user changes. |
| Users.Promote | src/users/users.service.ts:133-164 | Missing id gives NotFound. A NUTRITIONIST or ADMIN gives BadRequest. Success happens exactly for a CLIENT. Only the role changes, to NUTRITIONIST. The result is the selected id, email, name and new role, with no password and no creation time. |
| Users.ListAll | src/users/users.service.ts:41-66 | Page and limit default to 1 and 10. `total` is the number of users, and `totalPages` is `Math.ceil(total / limit)`. The page holds one projection for each user id of the `skip`/`take` slice of the table's enumeration order at offset `Skip(page, limit)`, in that order. The page holds at most `limit` users. The page is non-empty iff `page <= totalPages`. |
| Users.UsersCount | src/users/users.service.ts:44-45 | A duplicate-free enumeration of the user table has exactly as many entries as the table. |
| UserLemmas.PromoteOnce | src/users/users.service.ts:142-144 | Promotion is not repeatable: a second promotion of the same user fails with BadRequest. |
| UserLemmas.UpdateIdempotent | src/users/users.service.ts:109-120 | Repeating an update with the same payload yields the same store and result, given that `hash` is deterministic (see Left out). |
| UserLemmas.EmptyUpdateIsIdentity | src/users/users.service.ts:117-119 | An update that supplies no field leaves the store unchanged. |
| UserLemmas.UpdateCommutesWithPromote | src/users/users.service.ts:114-120 | Updating a client's profile and promoting that client commute. |
| UserLemmas.CreateThenListOneThenDelete | src/users/users.service.ts:68-97 | A registered user is found with the projection `create` returned. After deletion, the lookup and a second delete both fail with NotFound. |

## Left out

- E-mail notifications (the mail service) are left out. They are sent after the transaction, and their failures are swallowed. They never change the store.
- Date and time formatting for the e-mails is left out. Dates and times are opaque ordered integers.
- The race between the booking check and the transaction is left out. So are the database's isolation and its enforcement of the unique index under concurrent `create` calls. The model is sequential, and `Db.Wf` assumes the unique index holds.
- HTTP routing, JWT and role guards, and `ParseIntPipe` are left out. Caller ids are plain parameters.
- Query-string parsing and `new Date(...)` are left out. A missing or empty filter is `None`. An unparsable date is not modelled.
- DTO validation (e-mail format, password length) is left out. It is declarative and runs in a library outside this model.
- `listByClient` is left out. So is the execution of queries: the ordered rows the database returns are a parameter of `Agenda.ListAgenda` and `Users.ListAll`.
- Agenda.ListAgenda: each row's joined appointment (id, status, client id and email) is not modelled. The row is the slot id.
- Agenda.ListAgenda: `page` and `limit` are required to be at least 1. The validation DTO is not part of this model. A non-positive page gives a negative `skip`, which the database rejects, and a zero limit makes `totalPages` Infinity or NaN.
- Users.ListAll: `page` and `limit` are required to be at least 1, for the same reasons.
- Users.Create: a duplicate e-mail is not rejected. That rejection comes from the database's unique index, not from the service code.
- Users.Update: a duplicate e-mail is not rejected, for the same reason.
- Users.Delete: the schema's referential actions on the deleted user's appointments and slots are not modelled. Only the user row is removed.
- Password hashing is the parameter `hash`. It is an opaque function.
- UserLemmas.UpdateIdempotent: hashing is modelled as a deterministic function. A salted hasher stores a different value on a second identical update that supplies a password. The hashing service is not part of this model.
- Users.Update: a password sent as `null` is not modelled. Prisma would write or reject that null. In the model an absent password (`None`) keeps the stored one, which matches only `undefined`.
- Creation timestamps come from the parameter `now`.
- The response messages (fixed Portuguese strings) are left out.
