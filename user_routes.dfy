/**
 * The route handlers of worker/user-routes.ts over the entity stores: seeding
 * before each API request, register and login on the users store, the
 * dashboard summary, the application and scheme lists, and the single
 * application view. The digest, `crypto.randomUUID()` and date parsing are
 * parameters; a response is a `Response` value.
 */
module UserRoutes {
  import opened SharedTypes
  import opened PasswordHash
  import opened EntityStore
  import opened Entities
  import opened DateOrder
  import opened Dashboard

  const MsgRequired := "Email and password are required."
  const MsgUserExists := "User with this email already exists."
  const MsgInvalidCredentials := "Invalid credentials."
  const MsgApplicationNotFound := "Application not found"

  /** A request-body field is truthy: present and not the empty string. */
  predicate Provided(field: Option<string>) {
    field.Some? && field.value != ""
  }

  /** `const { hashedPassword: _, ...rest } = user`: the user without its password hash. */
  function WithoutPassword(u: AuthUser): (r: AuthUser)
    ensures r.hashedPassword.None?
    ensures r.id == u.id && r.email == u.email
  {
    u.(hashedPassword := None)
  }

  /** The record register stores: a fresh id, the email, and the password's hash. */
  function NewUser(digest: string -> seq<Byte>, id: string, email: string, password: string): (u: AuthUser)
    ensures u.id == id && u.email == email && UserEntity.keyOf(u) == email
    ensures u.hashedPassword.Some? && |u.hashedPassword.value| == 2 * |digest(password)|
    ensures FromHex(u.hashedPassword.value) == Some(digest(password))
  {
    AuthUser(id, email, Some(HashPassword(digest, password)))
  }

  /** The date of an application as a timestamp, for the list's comparator. */
  function ByApplicationDate(timeOf: string -> Timestamp): Application -> Timestamp {
    (a: Application) => timeOf(a.applicationDate)
  }

  /** The date of an event as a timestamp, for the events' comparator. */
  function ByEventDate(timeOf: string -> Timestamp): ApplicationEvent -> Timestamp {
    (e: ApplicationEvent) => timeOf(e.date)
  }

  /**
   * The middleware on every `/api/` route: seed schemes and applications (each only when its
   * index is still empty). The source runs the two concurrently; here they run
   * one after the other, which touches disjoint stores.
   */
  method EnsureSeeded(schemes: IndexedEntity<Scheme>, applications: IndexedEntity<Application>)
    requires schemes.Valid() && applications.Valid()
    modifies schemes, applications
    ensures schemes.Valid() && applications.Valid()
    ensures old(schemes.index) != [] ==> schemes.records == old(schemes.records) && schemes.index == old(schemes.index)
    ensures old(schemes.index) == [] ==>
      schemes.records == SeedRecords(schemes.desc.keyOf, SeedOf(schemes.desc))
      && schemes.index == SeedIndex(schemes.desc.keyOf, SeedOf(schemes.desc))
    ensures old(applications.index) != [] ==>
      applications.records == old(applications.records) && applications.index == old(applications.index)
    ensures old(applications.index) == [] ==>
      applications.records == SeedRecords(applications.desc.keyOf, SeedOf(applications.desc))
      && applications.index == SeedIndex(applications.desc.keyOf, SeedOf(applications.desc))
  {
    schemes.EnsureSeed();
    applications.EnsureSeed();
  }

  /**
   * `POST /api/register`. A missing or empty email or password, or an email
   * already registered, is a bad request and changes nothing. Otherwise a user
   * is stored under its email with the hash of the password, and returned
   * without the hash.
   */
  method Register(users: IndexedEntity<AuthUser>, digest: string -> seq<Byte>,
                  email: Option<string>, password: Option<string>, freshId: string)
    returns (r: Response<AuthUser>)
    requires users.Valid() && users.desc == UserEntity
    modifies users
    ensures users.Valid()
    ensures !Provided(email) || !Provided(password) ==>
      r == BadRequest(MsgRequired) && users.records == old(users.records) && users.index == old(users.index)
    ensures Provided(email) && Provided(password) && email.value in old(users.records) ==>
      r == BadRequest(MsgUserExists) && users.records == old(users.records) && users.index == old(users.index)
    ensures Provided(email) && Provided(password) && email.value !in old(users.records) ==>
      var u := NewUser(digest, freshId, email.value, password.value);
      r == Ok(WithoutPassword(u))
      && users.records == old(users.records)[email.value := u]
      && users.index == old(users.index) + [email.value]
  {
    if !Provided(email) || !Provided(password) {
      return BadRequest(MsgRequired);
    }
    if users.Exists(email.value) {
      return BadRequest(MsgUserExists);
    }
    var hashedPassword := HashPassword(digest, password.value);
    var newUser := AuthUser(freshId, email.value, Some(hashedPassword));
    users.Create(newUser);
    r := Ok(WithoutPassword(newUser));
  }

  /** What `POST /api/login` answers for a given users store. */
  function LoginOutcome(records: map<string, AuthUser>, digest: string -> seq<Byte>,
                        email: Option<string>, password: Option<string>): (r: Response<AuthUser>)
    ensures r.Ok? <==>
      Provided(email) && Provided(password) && email.value in records
      && records[email.value].hashedPassword == Some(HashPassword(digest, password.value))
    ensures r.Ok? ==> r.data.hashedPassword.None? && r.data.id == records[email.value].id
                      && r.data.email == records[email.value].email
  {
    if !Provided(email) || !Provided(password) then BadRequest(MsgRequired)
    else if email.value !in records then NotFound(MsgInvalidCredentials)
    else
      var user := records[email.value];
      if user.hashedPassword != Some(HashPassword(digest, password.value)) then BadRequest(MsgInvalidCredentials)
      else Ok(WithoutPassword(user))
  }

  /**
   * `POST /api/login`: a missing field is a bad request; an unknown email is
   * not found; a hash that differs from the stored one is a bad request; a match
   * returns the stored user without its hash. The store is only read.
   */
  method Login(users: IndexedEntity<AuthUser>, digest: string -> seq<Byte>,
               email: Option<string>, password: Option<string>)
    returns (r: Response<AuthUser>)
    requires users.Valid() && users.desc == UserEntity
    ensures r == LoginOutcome(users.records, digest, email, password)
    ensures !Provided(email) || !Provided(password) ==> r == BadRequest(MsgRequired)
    ensures Provided(email) && Provided(password) && email.value !in users.records ==>
      r == NotFound(MsgInvalidCredentials)
    ensures Provided(email) && Provided(password) && email.value in users.records && !r.Ok? ==>
      r == BadRequest(MsgInvalidCredentials)
  {
    if !Provided(email) || !Provided(password) {
      return BadRequest(MsgRequired);
    }
    if !users.Exists(email.value) {
      return NotFound(MsgInvalidCredentials);
    }
    var user := users.GetState(email.value);
    var hashedPassword := HashPassword(digest, password.value);
    if user.hashedPassword != Some(hashedPassword) {
      return BadRequest(MsgInvalidCredentials);
    }
    r := Ok(WithoutPassword(user));
  }

  /**
   * After register stored a user for `email` with password `p`, logging in with
   * password `q` succeeds exactly when `q` has the same digest as `p`, and then
   * returns the registered id and email without a hash.
   */
  lemma LoginAfterRegister(records: map<string, AuthUser>, digest: string -> seq<Byte>,
                           id: string, email: string, p: string, q: string)
    requires email != "" && p != "" && q != ""
    ensures var r := LoginOutcome(records[email := NewUser(digest, id, email, p)], digest, Some(email), Some(q));
      (r.Ok? <==> digest(q) == digest(p))
      && (r.Ok? ==> r.data == AuthUser(id, email, None))
      && (!r.Ok? ==> r == BadRequest(MsgInvalidCredentials))
  {
    HashesMatchIffDigestsMatch(digest, q, p);
  }

  /** `GET /api/dashboard-summary`: the summary of every stored application. */
  method DashboardSummaryRoute(applications: IndexedEntity<Application>) returns (r: Response<DashboardSummary>)
    requires applications.Valid()
    ensures r.Ok?
    ensures r.data.approvedApplications == CountWithStatus(applications.List(), Approved)
    ensures r.data.applicationsInReview == CountWithStatus(applications.List(), InReview)
    ensures r.data.totalLoanAmount == ApprovedAmount(applications.List(), Loan)
    ensures r.data.totalSubsidiesReceived == ApprovedAmount(applications.List(), Subsidy)
  {
    var items := applications.List();
    var summary := Summarize(items);
    r := Ok(summary);
  }

  /** Copies a list into a fresh array, as the deserialised JSON array of a response. */
  method ToArray<T>(items: seq<T>) returns (a: array<T>)
    ensures fresh(a) && a[..] == items
  {
    a := new T[|items|](i requires 0 <= i < |items| => items[i]);
  }

  /**
   * `GET /api/applications`: every stored application, once, sorted newest
   * application date first.
   */
  method ListApplications(applications: IndexedEntity<Application>, timeOf: string -> Timestamp)
    returns (r: Response<seq<Application>>)
    requires applications.Valid()
    ensures r.Ok?
    ensures multiset(r.data) == multiset(applications.List())
    ensures forall k :: k in applications.records ==> applications.records[k] in r.data
    ensures NewestFirst(r.data, ByApplicationDate(timeOf))
  {
    var items := applications.List();
    var a := ToArray(items);
    SortNewestFirst(a, ByApplicationDate(timeOf));
    r := Ok(a[..]);
    forall k | k in applications.records
      ensures applications.records[k] in r.data
    {
      var i :| 0 <= i < |applications.index| && applications.index[i] == k;
      assert items[i] in multiset(items);
    }
  }

  /** `GET /api/schemes`: every stored scheme, in index order. */
  method ListSchemes(schemes: IndexedEntity<Scheme>) returns (r: Response<seq<Scheme>>)
    requires schemes.Valid()
    ensures r.Ok? && |r.data| == |schemes.records|
    ensures forall k :: k in schemes.records ==> schemes.records[k] in r.data
    ensures forall s :: s in r.data ==> s in schemes.records.Values
  {
    var items := schemes.List();
    r := Ok(items);
    forall k | k in schemes.records
      ensures schemes.records[k] in r.data
    {
      var i :| 0 <= i < |schemes.index| && schemes.index[i] == k;
      assert items[i] == schemes.records[k];
    }
  }

  /**
   * `GET /api/application/:id`: not found when no application is stored under
   * `id`; otherwise the stored application with its events, when it has any
   * list of events, reordered newest first. The store itself is not changed.
   */
  method GetApplication(applications: IndexedEntity<Application>, timeOf: string -> Timestamp, id: string)
    returns (r: Response<Application>)
    requires applications.Valid()
    ensures id !in applications.records ==> r == NotFound(MsgApplicationNotFound)
    ensures id in applications.records ==>
      var stored := applications.records[id];
      r.Ok? && r.data.(events := stored.events) == stored
      && r.data.events.Some? == stored.events.Some?
      && (stored.events.Some? ==>
            multiset(r.data.events.value) == multiset(stored.events.value)
            && NewestFirst(r.data.events.value, ByEventDate(timeOf)))
  {
    if !applications.Exists(id) {
      return NotFound(MsgApplicationNotFound);
    }
    var application := applications.GetState(id);
    if application.events.Some? {
      var events := ToArray(application.events.value);
      SortNewestFirst(events, ByEventDate(timeOf));
      application := application.(events := Some(events[..]));
    }
    r := Ok(application);
  }
}
