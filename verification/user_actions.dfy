/** The user actions of lib/actions/user.actions.ts over the user table:
    lookup, paging, deletion, the field updates, and the result envelopes
    of sign-in, sign-up and admin user creation. The session's user id,
    the verdicts of schemas not part of this model, the password hash and
    the outcome of the session provider's sign-in are passed in. */
module UserActions {
  import opened Common
  import opened Store
  import opened Schemas

  const USER_NOT_FOUND_MSG := "User not found"
  const INVALID_CREDENTIALS_MSG := "Invalid credentials"
  const SIGNED_IN_MSG := "Signed in successfully"
  const REGISTERED_MSG := "User registered successfully"
  const ADDRESS_UPDATED_MSG := "Address updated successfully"
  const PAYMENT_UPDATED_MSG := "Payment method successfully updated"
  const PROFILE_UPDATED_MSG := "Profile updated successfully"
  const DELETED_MSG := "User deleted successfully"
  const ACCOUNT_UPDATED_MSG := "Account updated successfully"
  const USERS_PAGE := "/admin/users"

  /** The role a new row gets from the table's default (the database schema
      file is not part of this model). */
  const DEFAULT_ROLE := "user"

  /** `getUserById`: the row, or the error "User not found". */
  function GetUserById(users: map<Id, User>, id: Id): (r: Result<User>)
    ensures r.Ok? <==> id in users
    ensures r.Ok? ==> r.value == users[id]
    ensures r.Err? ==> r.error == Message(USER_NOT_FOUND_MSG)
  {
    if id in users then Ok(users[id]) else Err(Message(USER_NOT_FOUND_MSG))
  }

  // ---------------------------------------------------------------------
  // Looking up the signed-in user

  /** The lookup as written: `findFirst({ where: { id: session?.user?.id } })`.
      Without a signed-in user the filter is `{ id: undefined }`, which the
      store reads as no filter at all, so it returns whichever row it meets
      first (some row, when the table is not empty). */
  ghost function FindFirstUserAsWritten(users: map<Id, User>, sessionUserId: Option<Id>): (r: Option<Id>)
    ensures sessionUserId.Some? ==> (r.Some? <==> sessionUserId.value in users)
    ensures sessionUserId.Some? && r.Some? ==> r == sessionUserId
    ensures sessionUserId.None? ==> (r.Some? <==> users != map[])
    ensures r.Some? ==> r.value in users
  {
    match sessionUserId
    case Some(id) => if id in users then Some(id) else None
    case None =>
      if users == map[] then None
      else
        assert exists id :: id in users by {
          var k :| k in users.Keys;
        }
        var id :| id in users; Some(id)
  }

  /** The intended lookup: the signed-in user's row; nothing for an
      anonymous caller. The update actions below use this one. */
  function FindCurrentUser(users: map<Id, User>, sessionUserId: Option<Id>): (r: Option<Id>)
    ensures r.Some? <==> sessionUserId.Some? && sessionUserId.value in users
    ensures r.Some? ==> r == sessionUserId
  {
    if sessionUserId.Some? && sessionUserId.value in users then sessionUserId else None
  }

  /** An anonymous caller: the lookup as written still finds a row to update
      whenever the table has one, while the intended lookup finds none. */
  lemma AnonymousCallerFindsARow(users: map<Id, User>)
    requires users != map[]
    ensures FindFirstUserAsWritten(users, None).Some?
    ensures FindFirstUserAsWritten(users, None).value in users
    ensures FindCurrentUser(users, None).None?
  {
  }

  /** For a signed-in caller the two lookups agree. */
  lemma SignedInLookupsAgree(users: map<Id, User>, id: Id)
    ensures FindFirstUserAsWritten(users, Some(id)) == FindCurrentUser(users, Some(id))
  {
  }

  // ---------------------------------------------------------------------
  // Field updates

  /** `updateUserAddress`: the address is parsed first (its schema is not
      part of this model; `parsed` is its verdict), then the caller's row is
      looked up; only its address changes. */
  method UpdateUserAddress(db: Db, sessionUserId: Option<Id>, parsed: Result<Address>) returns (reply: Reply)
    requires db.Valid()
    modifies db
    ensures db.Valid()
    ensures db.carts == old(db.carts) && db.orders == old(db.orders) && db.orderItems == old(db.orderItems)
    ensures db.products == old(db.products) && db.nextId == old(db.nextId)
    ensures parsed.Err? ==> reply == Failed(parsed.error)
    ensures parsed.Ok? && FindCurrentUser(old(db.users), sessionUserId).None? ==>
              reply == Failed(Message(USER_NOT_FOUND_MSG))
    ensures reply.Succeeded? <==> parsed.Ok? && FindCurrentUser(old(db.users), sessionUserId).Some?
    ensures if reply.Succeeded? then
              var id := sessionUserId.value;
              reply.message == ADDRESS_UPDATED_MSG &&
              db.users == old(db.users)[id := old(db.users)[id].(address := Some(parsed.value))]
            else db.users == old(db.users)
  {
    if parsed.Err? {
      return Failed(parsed.error);
    }
    var current := FindCurrentUser(db.users, sessionUserId);
    if current.None? {
      return Failed(Message(USER_NOT_FOUND_MSG));
    }
    var id := current.value;
    db.users := db.users[id := db.users[id].(address := Some(parsed.value))];
    return Succeeded(ADDRESS_UPDATED_MSG);
  }

  /** `updateUserPaymentMethod`: the caller's row is looked up first, then
      the form is parsed (`parsed` is the schema's verdict: the chosen
      type); only the payment method changes. */
  method UpdateUserPaymentMethod(db: Db, sessionUserId: Option<Id>, parsed: Result<string>) returns (reply: Reply)
    requires db.Valid()
    modifies db
    ensures db.Valid()
    ensures db.carts == old(db.carts) && db.orders == old(db.orders) && db.orderItems == old(db.orderItems)
    ensures db.products == old(db.products) && db.nextId == old(db.nextId)
    ensures FindCurrentUser(old(db.users), sessionUserId).None? ==> reply == Failed(Message(USER_NOT_FOUND_MSG))
    ensures FindCurrentUser(old(db.users), sessionUserId).Some? && parsed.Err? ==> reply == Failed(parsed.error)
    ensures reply.Succeeded? <==> parsed.Ok? && FindCurrentUser(old(db.users), sessionUserId).Some?
    ensures if reply.Succeeded? then
              var id := sessionUserId.value;
              reply.message == PAYMENT_UPDATED_MSG &&
              db.users == old(db.users)[id := old(db.users)[id].(paymentMethod := Some(parsed.value))]
            else db.users == old(db.users)
  {
    var current := FindCurrentUser(db.users, sessionUserId);
    if current.None? {
      return Failed(Message(USER_NOT_FOUND_MSG));
    }
    if parsed.Err? {
      return Failed(parsed.error);
    }
    var id := current.value;
    db.users := db.users[id := db.users[id].(paymentMethod := Some(parsed.value))];
    return Succeeded(PAYMENT_UPDATED_MSG);
  }

  /** `updateProfile`: only the name of the caller's row changes; the
      e-mail passed in is ignored. */
  method UpdateProfile(db: Db, sessionUserId: Option<Id>, name: string, email: string) returns (reply: Reply)
    requires db.Valid()
    modifies db
    ensures db.Valid()
    ensures db.carts == old(db.carts) && db.orders == old(db.orders) && db.orderItems == old(db.orderItems)
    ensures db.products == old(db.products) && db.nextId == old(db.nextId)
    ensures reply.Succeeded? <==> FindCurrentUser(old(db.users), sessionUserId).Some?
    ensures !reply.Succeeded? ==> reply == Failed(Message(USER_NOT_FOUND_MSG))
    ensures if reply.Succeeded? then
              var id := sessionUserId.value;
              reply.message == PROFILE_UPDATED_MSG &&
              db.users == old(db.users)[id := old(db.users)[id].(name := name)]
            else db.users == old(db.users)
  {
    var current := FindCurrentUser(db.users, sessionUserId);
    if current.None? {
      return Failed(Message(USER_NOT_FOUND_MSG));
    }
    var id := current.value;
    db.users := db.users[id := db.users[id].(name := name)];
    return Succeeded(PROFILE_UPDATED_MSG);
  }

  /** `updateUserAccount` (admin): only name and role of the given row
      change; the store refuses an update of a missing row. */
  method UpdateUserAccount(db: Db, id: Id, name: string, role: string) returns (reply: Reply)
    requires db.Valid()
    modifies db
    ensures db.Valid()
    ensures db.carts == old(db.carts) && db.orders == old(db.orders) && db.orderItems == old(db.orderItems)
    ensures db.products == old(db.products) && db.nextId == old(db.nextId)
    ensures reply.Succeeded? <==> id in old(db.users)
    ensures !reply.Succeeded? ==> reply == Failed(RecordNotFound)
    ensures if reply.Succeeded? then
              reply.message == ACCOUNT_UPDATED_MSG &&
              db.users == old(db.users)[id := old(db.users)[id].(name := name, role := role)]
            else db.users == old(db.users)
  {
    if id !in db.users {
      return Failed(RecordNotFound);
    }
    db.users := db.users[id := db.users[id].(name := name, role := role)];
    return Succeeded(ACCOUNT_UPDATED_MSG);
  }

  /** `deleteUser`: an unknown id is reported and changes nothing; a known
      one removes exactly that row. */
  method DeleteUser(db: Db, id: Id) returns (reply: Reply)
    requires db.Valid()
    modifies db
    ensures db.Valid()
    ensures db.carts == old(db.carts) && db.orders == old(db.orders) && db.orderItems == old(db.orderItems)
    ensures db.products == old(db.products) && db.nextId == old(db.nextId)
    ensures id !in old(db.users) ==> reply == Failed(Message(USER_NOT_FOUND_MSG)) && db.users == old(db.users)
    ensures id in old(db.users) ==> reply == Succeeded(DELETED_MSG) && db.users == old(db.users) - {id}
  {
    if id !in db.users {
      return Failed(Message(USER_NOT_FOUND_MSG));
    }
    db.users := db.users - {id};
    return Succeeded(DELETED_MSG);
  }

  // ---------------------------------------------------------------------
  // Paging

  /** One page of the user list, the row count and the number of pages. */
  datatype UsersPage = UsersPage(data: seq<User>, dataCount: nat, totalPages: nat)

  /** `skip = (page - 1) * limit`. */
  function Skip(page: nat, limit: nat): nat
    requires page >= 1
  {
    (page - 1) * limit
  }

  /** `Math.ceil(count / limit)`: the fewest pages of `limit` rows that
      hold `count` rows. */
  function TotalPages(count: nat, limit: nat): (n: nat)
    requires limit >= 1
    ensures n * limit >= count
    ensures n >= 1 ==> (n - 1) * limit < count
  {
    var n := (count + limit - 1) / limit;
    assert n * limit <= count + limit - 1;
    assert n * limit + limit > count + limit - 1;
    n
  }

  lemma MulMonotonic(a: nat, b: nat, c: nat)
    ensures a <= b ==> a * c <= b * c
  {
  }

  /** `getAllUsers`: `rows` is the table in the listing order (newest
      first); the page is the window of at most `limit` rows after the
      first `(page - 1) * limit`. */
  function GetAllUsers(rows: seq<User>, page: nat, limit: nat): (r: UsersPage)
    requires page >= 1 && limit >= 1
    ensures r.dataCount == |rows| && r.totalPages == TotalPages(|rows|, limit)
    ensures |r.data| <= limit
    ensures forall k :: 0 <= k < |r.data| ==> Skip(page, limit) + k < |rows| && r.data[k] == rows[Skip(page, limit) + k]
    ensures Skip(page, limit) + limit <= |rows| ==> |r.data| == limit
    ensures page > r.totalPages ==> r.data == []
  {
    var n := TotalPages(|rows|, limit);
    var skip := Skip(page, limit);
    var lo := if skip < |rows| then skip else |rows|;
    var hi := if skip + limit < |rows| then skip + limit else |rows|;
    MulMonotonic(n, page - 1, limit);
    UsersPage(rows[lo..hi], |rows|, n)
  }

  /** Every row lies on a page from 1 to the page count, at its offset. */
  lemma PageCoverage(rows: seq<User>, limit: nat, i: nat)
    requires limit >= 1 && i < |rows|
    ensures var p := i / limit + 1;
            && 1 <= p <= TotalPages(|rows|, limit)
            && Skip(p, limit) <= i < Skip(p, limit) + limit
            && GetAllUsers(rows, p, limit).data[i - Skip(p, limit)] == rows[i]
  {
    var p := i / limit + 1;
    var n := TotalPages(|rows|, limit);
    assert Skip(p, limit) == (i / limit) * limit;
    assert (i / limit) * limit <= i < (i / limit) * limit + limit;
    var page := GetAllUsers(rows, p, limit);
    assert |page.data| > i - Skip(p, limit) by {
      var skip := Skip(p, limit);
      var hi := if skip + limit < |rows| then skip + limit else |rows|;
      assert |page.data| == hi - skip;
    }
  }

  /** Two different pages never share a row. */
  lemma PagesDisjoint(limit: nat, p: nat, q: nat, i: nat)
    requires limit >= 1 && p >= 1 && q >= 1 && p != q
    ensures !(Skip(p, limit) <= i < Skip(p, limit) + limit && Skip(q, limit) <= i < Skip(q, limit) + limit)
  {
    if p < q {
      assert Skip(p, limit) + limit == p * limit <= (q - 1) * limit == Skip(q, limit);
    } else {
      assert Skip(q, limit) + limit == q * limit <= (p - 1) * limit == Skip(p, limit);
    }
  }

  // ---------------------------------------------------------------------
  // Sign-in, sign-up and admin user creation

  /** What the session provider's sign-in does: completes, raises the
      framework's redirect signal, or fails with a message. */
  datatype AuthOutcome = SignedIn | AuthRedirect(url: string) | AuthFailed(message: string)

  /** `signInWithCredentials`: every failure that is not a redirect signal,
      an invalid form included, becomes "Invalid credentials"; a redirect
      signal propagates. */
  function SignInWithCredentials(email: string, password: string, isEmail: string -> bool, signIn: AuthOutcome): (r: Reply)
    ensures r.Succeeded? <==> SignInIssues(email, password, isEmail) == [] && signIn.SignedIn?
    ensures r.Rethrown? <==> SignInIssues(email, password, isEmail) == [] && signIn.AuthRedirect?
    ensures r.Rethrown? ==> r.url == signIn.url
    ensures r.Succeeded? ==> r.message == SIGNED_IN_MSG
    ensures r.Failed? ==> r.error == Message(INVALID_CREDENTIALS_MSG)
  {
    if SignInIssues(email, password, isEmail) != [] then Failed(Message(INVALID_CREDENTIALS_MSG))
    else
      match signIn
      case SignedIn => Succeeded(SIGNED_IN_MSG)
      case AuthRedirect(url) => Rethrown(url)
      case AuthFailed(_) => Failed(Message(INVALID_CREDENTIALS_MSG))
  }

  predicate EmailTaken(users: map<Id, User>, email: string)
  {
    exists id :: id in users && users[id].email == email
  }

  /** `signUpWithCredentials`: validate the form, insert the row with the
      hashed password (the store refuses a second row with the same e-mail),
      then sign in. The row stays even when the sign-in afterwards fails or
      redirects: the two steps are not one transaction. */
  method SignUpWithCredentials(db: Db, form: SignUpInput, isEmail: string -> bool,
                               hash: string -> string, signIn: AuthOutcome) returns (reply: Reply)
    requires db.Valid()
    modifies db
    ensures db.Valid()
    ensures db.carts == old(db.carts) && db.orders == old(db.orders) && db.orderItems == old(db.orderItems)
    ensures db.products == old(db.products)
    ensures SignUpIssues(form, isEmail) != [] ==> reply == Failed(Invalid(SignUpIssues(form, isEmail)))
    ensures SignUpIssues(form, isEmail) == [] && EmailTaken(old(db.users), form.email) ==>
              reply == Failed(UniqueViolation("email"))
    ensures if SignUpIssues(form, isEmail) == [] && !EmailTaken(old(db.users), form.email) then
              var id := old(db.nextId);
              && db.users == old(db.users)[id := User(form.name, form.email, DEFAULT_ROLE, hash(form.password), None, None)]
              && id !in old(db.users)
              && db.nextId == id + 1
              && reply == match signIn
                          case SignedIn => Succeeded(REGISTERED_MSG)
                          case AuthRedirect(url) => Rethrown(url)
                          case AuthFailed(m) => Failed(Message(m))
            else db.users == old(db.users) && db.nextId == old(db.nextId)
  {
    var issues := SignUpIssues(form, isEmail);
    if issues != [] {
      return Failed(Invalid(issues));
    }
    if EmailTaken(db.users, form.email) {
      return Failed(UniqueViolation("email"));
    }
    var id := db.nextId;
    db.users := db.users[id := User(form.name, form.email, DEFAULT_ROLE, hash(form.password), None, None)];
    db.nextId := db.nextId + 1;
    match signIn
    case SignedIn => reply := Succeeded(REGISTERED_MSG);
    case AuthRedirect(url) => reply := Rethrown(url);
    case AuthFailed(m) => reply := Failed(Message(m));
  }

  /** The fields of the admin's create-user form after its schema (not part
      of this model) accepted them. */
  datatype NewUser = NewUser(name: string, email: string, role: string, password: string)

  /** `createUser` (admin): insert the row, then redirect to the user list.
      The redirect signal is rethrown, so a successful call never returns
      its success envelope. */
  method CreateUser(db: Db, parsed: Result<NewUser>, hash: string -> string) returns (reply: Reply)
    requires db.Valid()
    modifies db
    ensures db.Valid()
    ensures db.carts == old(db.carts) && db.orders == old(db.orders) && db.orderItems == old(db.orderItems)
    ensures db.products == old(db.products)
    ensures !reply.Succeeded?
    ensures parsed.Err? ==> reply == Failed(parsed.error)
    ensures parsed.Ok? && EmailTaken(old(db.users), parsed.value.email) ==> reply == Failed(UniqueViolation("email"))
    ensures if parsed.Ok? && !EmailTaken(old(db.users), parsed.value.email) then
              var u := parsed.value;
              var id := old(db.nextId);
              && reply == Rethrown(USERS_PAGE)
              && id !in old(db.users)
              && db.users == old(db.users)[id := User(u.name, u.email, u.role, hash(u.password), None, None)]
              && db.nextId == id + 1
            else db.users == old(db.users) && db.nextId == old(db.nextId)
  {
    if parsed.Err? {
      return Failed(parsed.error);
    }
    var u := parsed.value;
    if EmailTaken(db.users, u.email) {
      return Failed(UniqueViolation("email"));
    }
    var id := db.nextId;
    db.users := db.users[id := User(u.name, u.email, u.role, hash(u.password), None, None)];
    db.nextId := db.nextId + 1;
    return Rethrown(USERS_PAGE);
  }
}
