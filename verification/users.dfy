/** The users service: registration, lookup, deletion, profile update,
    promotion to nutritionist and the paginated user listing. Password
    hashing is an opaque function passed in as `hash`. */
module Users {
  import opened Results
  import opened Db
  import opened Pagination

  /** The columns the service selects for its callers; there is no password
      column, so no result of the service ever carries one. */
  datatype UserView = UserView(id: nat, email: string, name: Option<string>, createdAt: int, role: Role)

  /** The registration payload. */
  datatype NewUser = NewUser(email: string, name: Option<string>, password: string)

  /** The update payload: every field optional. */
  datatype UserPatch = UserPatch(email: Option<string>, name: Option<string>, password: Option<string>)

  /** The columns `promoteToNutritionist` selects: no password and no
      creation time. */
  datatype PromotedView = PromotedView(id: nat, email: string, name: Option<string>, role: Role)

  datatype UserListing = UserListing(data: seq<UserView>, page: int, total: nat, limit: int, totalPages: nat)

  /** Projection of a stored user onto the selected columns. */
  function View(st: Store, id: nat): (v: UserView)
    requires id in st.users
    ensures v.id == id && v.email == st.users[id].email && v.name == st.users[id].name
    ensures v.createdAt == st.users[id].createdAt && v.role == st.users[id].role
  {
    var u := st.users[id];
    UserView(id, u.email, u.name, u.createdAt, u.role)
  }

  /** `create(dto)`: insert a user under the next free id with the hash of
      the password; the role is CLIENT, the schema's default. */
  function Create(st: Store, dto: NewUser, hash: string -> string, now: int): (r: (Store, UserView))
    requires Wf(st)
    ensures var (st', v) := r;
              && v.id !in st.users
              && st'.users == st.users[v.id := User(dto.email, dto.name, hash(dto.password), Client, now)]
              && st'.slots == st.slots && st'.appointments == st.appointments
              && v == UserView(v.id, dto.email, dto.name, now, Client)
              && Wf(st')
  {
    var id := st.nextUserId;
    var st' := st.(users := st.users[id := User(dto.email, dto.name, hash(dto.password), Client, now)],
                   nextUserId := id + 1);
    (st', View(st', id))
  }

  /** `listOne(id)`: the stored user's public columns. */
  function ListOne(st: Store, id: nat): (r: Result<UserView>)
    ensures r.Err? <==> id !in st.users
    ensures r.Err? ==> r.error == NotFound
    ensures r.Ok? ==>
              var u := st.users[id];
              r.value.id == id && r.value.email == u.email && r.value.name == u.name
              && r.value.createdAt == u.createdAt && r.value.role == u.role
  {
    if id !in st.users then Err(NotFound) else Ok(View(st, id))
  }

  /** `delete(id)`: remove exactly that user row. */
  function Delete(st: Store, id: nat): (r: Result<Store>)
    ensures r.Err? <==> id !in st.users
    ensures r.Err? ==> r.error == NotFound
    ensures r.Ok? ==>
              && r.value.users.Keys == st.users.Keys - {id}
              && (forall other :: other in r.value.users ==> r.value.users[other] == st.users[other])
              && r.value.slots == st.slots && r.value.appointments == st.appointments
              && r.value.nextUserId == st.nextUserId
  {
    if id !in st.users then Err(NotFound)
    else Ok(st.(users := st.users - {id}))
  }

  /** The password column after an update: untouched when no password is
      supplied; the hash of a non-empty password; and an empty password,
      being falsy, is written as given, unhashed. */
  function NewPassword(stored: string, supplied: Option<string>, hash: string -> string): (pw: string)
    ensures supplied.None? ==> pw == stored
    ensures supplied.Some? && supplied.value != "" ==> pw == hash(supplied.value)
    ensures supplied == Some("") ==> pw == ""
  {
    match supplied
    case None => stored
    case Some(p) => if p != "" then hash(p) else p
  }

  /** `update(id, dto)`: each of email and name takes the supplied value or
      keeps the stored one; the password is replaced as `NewPassword` says;
      role and creation time are never changed. */
  function Update(st: Store, id: nat, patch: UserPatch, hash: string -> string): (r: Result<(Store, UserView)>)
    ensures r.Err? <==> id !in st.users
    ensures r.Err? ==> r.error == NotFound
    ensures r.Ok? ==>
              var (st', v) := r.value;
              var u := st.users[id];
              && st'.users.Keys == st.users.Keys
              && (forall other :: other in st.users && other != id ==> st'.users[other] == st.users[other])
              && var u' := st'.users[id];
              && (patch.email.Some? ==> u'.email == patch.email.value)
              && (patch.email.None? ==> u'.email == u.email)
              && (patch.name.Some? ==> u'.name == patch.name)
              && (patch.name.None? ==> u'.name == u.name)
              && (patch.password.None? ==> u'.password == u.password)
              && (patch.password.Some? && patch.password.value != "" ==> u'.password == hash(patch.password.value))
              && (patch.password == Some("") ==> u'.password == "")
              && u'.role == u.role && u'.createdAt == u.createdAt
              && st'.slots == st.slots && st'.appointments == st.appointments
              && st'.nextUserId == st.nextUserId
              && v == View(st', id)
  {
    if id !in st.users then Err(NotFound)
    else
      var u := st.users[id];
      var u' := u.(email := patch.email.GetOr(u.email),
                   name := if patch.name.Some? then patch.name else u.name,
                   password := NewPassword(u.password, patch.password, hash));
      var st' := st.(users := st.users[id := u']);
      Ok((st', View(st', id)))
  }

  /** `promoteToNutritionist(userId)`: only a CLIENT can be promoted; an
      existing nutritionist or an admin is rejected. Only the role changes. */
  function Promote(st: Store, id: nat): (r: Result<(Store, PromotedView)>)
    ensures r == Err(NotFound) <==> id !in st.users
    ensures r == Err(BadRequest) <==> id in st.users && st.users[id].role != Client
    ensures r.Ok? <==> id in st.users && st.users[id].role == Client
    ensures r.Ok? ==>
              var (st', v) := r.value;
              && st'.users == st.users[id := st.users[id].(role := Nutritionist)]
              && st'.slots == st.slots && st'.appointments == st.appointments
              && st'.nextUserId == st.nextUserId
              && v == PromotedView(id, st.users[id].email, st.users[id].name, Nutritionist)
  {
    if id !in st.users then Err(NotFound)
    else if st.users[id].role == Nutritionist then Err(BadRequest)
    else if st.users[id].role == Admin then Err(BadRequest)
    else
      assert st.users[id].role == Client;
      var u := st.users[id];
      var st' := st.(users := st.users[id := u.(role := Nutritionist)]);
      Ok((st', PromotedView(id, u.email, u.name, Nutritionist)))
  }

  /** `listAll(page, limit)`: one page of users. `order` is the order in
      which the database enumerates the user rows (the query has no ORDER BY). */
  function ListAll(st: Store, page: Option<int>, limit: Option<int>, order: seq<nat>): (r: UserListing)
    requires page.Some? ==> page.value >= 1
    requires limit.Some? ==> limit.value >= 1
    requires forall i :: 0 <= i < |order| ==> order[i] in st.users
    requires forall id :: id in st.users ==> id in order
    requires forall i, j :: 0 <= i < j < |order| ==> order[i] != order[j]
    ensures r.page == ResolvePage(page) && r.limit == ResolveLimit(limit)
    ensures r.total == |st.users|
    ensures r.totalPages == TotalPages(r.total, r.limit)
    ensures |r.data| == |Page(order, Skip(r.page, r.limit), r.limit)|
    ensures forall i :: 0 <= i < |r.data| ==>
              r.data[i] == View(st, Page(order, Skip(r.page, r.limit), r.limit)[i])
    ensures |r.data| <= r.limit
    ensures |r.data| > 0 <==> r.page <= r.totalPages
  {
    var p := ResolvePage(page);
    var l := ResolveLimit(limit);
    var k := Skip(p, l);
    var ids := Page(order, k, l);
    UsersCount(st, order);
    ListingShape(order, p, l);
    UserListing(Views(st, ids), p, |order|, l, TotalPages(|order|, l))
  }

  /** The projections of the users `ids`, in order. */
  function Views(st: Store, ids: seq<nat>): (vs: seq<UserView>)
    requires forall i :: 0 <= i < |ids| ==> ids[i] in st.users
    ensures |vs| == |ids|
    ensures forall i :: 0 <= i < |ids| ==> vs[i] == View(st, ids[i])
  {
    seq(|ids|, i requires 0 <= i < |ids| => View(st, ids[i]))
  }

  /** A duplicate-free enumeration of the user table is as long as the table. */
  lemma {:induction false} UsersCount(st: Store, order: seq<nat>)
    requires forall i :: 0 <= i < |order| ==> order[i] in st.users
    requires forall id :: id in st.users ==> id in order
    requires forall i, j :: 0 <= i < j < |order| ==> order[i] != order[j]
    ensures |order| == |st.users|
    decreases |order|
  {
    if |order| > 0 {
      var last := order[|order| - 1];
      var rest := st.(users := st.users - {last});
      assert forall i :: 0 <= i < |order| - 1 ==> order[i] != last;
      UsersCount(rest, order[..|order| - 1]);
    }
  }
}

/** Consequences of the users service's contracts over sequences of calls. */
module UserLemmas {
  import opened Results
  import opened Db
  import opened Users

  /** Promotion is not repeatable. */
  lemma PromoteOnce(st: Store, id: nat)
    requires Promote(st, id).Ok?
    ensures Promote(Promote(st, id).value.0, id) == Err(BadRequest)
  {
  }

  /** Applying the same update twice changes nothing the first did not. */
  lemma UpdateIdempotent(st: Store, id: nat, patch: UserPatch, hash: string -> string)
    requires Update(st, id, patch, hash).Ok?
    ensures Update(Update(st, id, patch, hash).value.0, id, patch, hash) == Update(st, id, patch, hash)
  {
    var (st1, _) := Update(st, id, patch, hash).value;
    var (st2, _) := Update(st1, id, patch, hash).value;
    assert st2.users[id] == st1.users[id];
    assert st2.users == st1.users;
  }

  /** An update with no fields leaves the store as it was. */
  lemma EmptyUpdateIsIdentity(st: Store, id: nat, hash: string -> string)
    requires id in st.users
    ensures Update(st, id, UserPatch(None, None, None), hash) == Ok((st, View(st, id)))
  {
    assert st.users[id := st.users[id]] == st.users;
  }

  /** Updating a profile and promoting its owner do not interfere: either
      order yields the same store. */
  lemma UpdateCommutesWithPromote(st: Store, id: nat, patch: UserPatch, hash: string -> string)
    requires id in st.users && st.users[id].role == Client
    ensures Promote(Update(st, id, patch, hash).value.0, id).value.0
            == Update(Promote(st, id).value.0, id, patch, hash).value.0
  {
  }

  /** A registered user can be looked up, and no longer after deletion. */
  lemma CreateThenListOneThenDelete(st: Store, dto: NewUser, hash: string -> string, now: int)
    requires Wf(st)
    ensures var (st', v) := Create(st, dto, hash, now);
            && ListOne(st', v.id) == Ok(v)
            && Delete(st', v.id).Ok?
            && ListOne(Delete(st', v.id).value, v.id) == Err(NotFound)
            && Delete(Delete(st', v.id).value, v.id) == Err(NotFound)
  {
  }
}
