/**
server.js, the KitchenIQ Hub draft. User, contact and estimate ids come
from counters that only ever grow; newsletter ids are `length + 1`.
Registration checks field lengths, newsletter emails must contain `@`,
estimates need a product and a positive cost, and the admin routes list,
count and delete records by id.
*/
module Server {
  import opened Lists
  import opened Records
  import opened Accounts

  /** The in-memory database: four arrays and three id counters. */
  datatype Store = Store(
    users: seq<User>,
    contacts: seq<Contact>,
    newsletters: seq<Subscription>,
    estimates: seq<Estimate>,
    userIdCounter: int,
    contactIdCounter: int,
    estimateIdCounter: int)

  /** The store at process start. */
  const Initial: Store := Store([], [], [], [], 1, 1, 1)

  const MinUsernameLength := 3
  const MinPasswordLength := 6

  /** The phone recorded when the form leaves it empty. */
  const NoPhone := "Not provided"

  const AllFieldsRequired := "All fields are required"
  const UsernameTooShort := "Username must be at least 3 characters"
  const PasswordTooShort := "Password must be at least 6 characters"
  const UserExists := "User already exists with this email or username"
  const Registered := "Registration successful! You can now login."
  const CredentialsRequired := "Email and password are required"
  const UnknownEmailMessage := "User not found. Please check your email."
  const WrongPasswordMessage := "Invalid password. Please try again."
  const LoggedInMessage := "Login successful!"
  const ContactFieldsRequired := "Name, email, subject and message are required"
  const ContactReceived := "Thank you for your message! We'll get back to you soon."
  const EmailRequired := "Email is required"
  const InvalidEmail := "Please enter a valid email address"
  const AlreadySubscribed := "You're already subscribed to our newsletter! Thank you."
  const Subscribed := "Thank you for subscribing to our newsletter! You'll receive updates soon."
  const NoProductSelected := "Please select at least one product"
  const InvalidCost := "Invalid total cost"
  const EstimateSaved := "Cost estimate saved successfully!"
  const HealthMessage := "\U{2705} KitchenIQ Hub Server is running perfectly!"
  const ContactMissing := "Contact not found"
  const ContactDeleted := "Contact deleted successfully"
  const SubscriberMissing := "Subscriber not found"
  const SubscriberDeleted := "Subscriber deleted successfully"
  const UserMissing := "User not found"
  const UserDeleted := "User deleted successfully"
  const EstimateMissing := "Estimate not found"
  const EstimateDeleted := "Estimate deleted successfully"

  predicate AdmissibleUser(u: User) {
    |u.username| >= MinUsernameLength && |u.password| >= MinPasswordLength && u.email != ""
  }

  predicate HasAt(n: Subscription) {
    '@' in n.email
  }

  predicate AdmissibleEstimate(e: Estimate) {
    |e.selectedProducts| > 0 && e.totalCost > 0
  }

  /** What every reachable store satisfies. Newsletter ids are deliberately
      absent: they need not be unique (see NewsletterIdsCollide). */
  ghost predicate Valid(st: Store) {
    && Distinct(st.users, UserName)
    && Distinct(st.users, UserEmail)
    && Every(st.users, AdmissibleUser)
    && Increasing(st.users, UserId)
    && Below(st.users, UserId, st.userIdCounter)
    && Increasing(st.contacts, ContactId)
    && Below(st.contacts, ContactId, st.contactIdCounter)
    && Distinct(st.newsletters, SubscriptionEmail)
    && Every(st.newsletters, HasAt)
    && Increasing(st.estimates, EstimateId)
    && Below(st.estimates, EstimateId, st.estimateIdCounter)
    && Every(st.estimates, AdmissibleEstimate)
  }

  // ---------------------------------------------------------------------
  // Request handlers
  // ---------------------------------------------------------------------

  /** POST /api/register. */
  function Register(st: Store, username: Input, email: Input, password: Input, now: int): (r: Step<Store>)
    ensures r.reply.status == Ok || r.reply.status == BadRequest
    ensures r.reply.status == BadRequest <==>
      || !Present(username) || !Present(email) || !Present(password)
      || |username.text| < MinUsernameLength
      || |password.text| < MinPasswordLength
      || exists i :: 0 <= i < |st.users| && (st.users[i].email == email.text || st.users[i].username == username.text)
    ensures !r.reply.Success() ==> r.store == st && r.reply.payload == NoPayload
    ensures !Present(username) || !Present(email) || !Present(password)
      ==> r.reply == Reply(BadRequest, AllFieldsRequired, NoPayload)
    ensures Present(username) && Present(email) && Present(password)
      && |username.text| < MinUsernameLength
      ==> r.reply == Reply(BadRequest, UsernameTooShort, NoPayload)
    ensures Present(username) && Present(email) && Present(password)
      && |username.text| >= MinUsernameLength && |password.text| < MinPasswordLength
      ==> r.reply == Reply(BadRequest, PasswordTooShort, NoPayload)
    ensures Present(username) && Present(email) && Present(password)
      && |username.text| >= MinUsernameLength && |password.text| >= MinPasswordLength
      && (exists i :: 0 <= i < |st.users| && (st.users[i].email == email.text || st.users[i].username == username.text))
      ==> r.reply == Reply(BadRequest, UserExists, NoPayload)
    ensures r.reply.Success() ==>
      && r.reply.message == Registered
      && r.store.users == st.users + [User(st.userIdCounter, username.text, email.text, password.text, now)]
      && r.store.userIdCounter == st.userIdCounter + 1
      && r.store == st.(users := r.store.users, userIdCounter := r.store.userIdCounter)
      && r.reply.payload == UserPayload(PublicUser(st.userIdCounter, username.text, email.text))
  {
    if !Present(username) || !Present(email) || !Present(password) then
      Step(Reply(BadRequest, AllFieldsRequired, NoPayload), st)
    else if |username.text| < MinUsernameLength then
      Step(Reply(BadRequest, UsernameTooShort, NoPayload), st)
    else if |password.text| < MinPasswordLength then
      Step(Reply(BadRequest, PasswordTooShort, NoPayload), st)
    else if Taken(st.users, username.text, email.text) then
      Step(Reply(BadRequest, UserExists, NoPayload), st)
    else
      var user := User(st.userIdCounter, username.text, email.text, password.text, now);
      Step(Reply(Ok, Registered, UserPayload(Public(user))),
           st.(users := st.users + [user], userIdCounter := st.userIdCounter + 1))
  }

  /** POST /api/login. It returns no store: login never changes state. */
  function Login(st: Store, email: Input, password: Input): (r: Reply)
    ensures r.status == Ok || r.status == BadRequest
    ensures !Present(email) || !Present(password) ==> r == Reply(BadRequest, CredentialsRequired, NoPayload)
    ensures Present(email) && Present(password) && (forall i :: 0 <= i < |st.users| ==> st.users[i].email != email.text)
      ==> r == Reply(BadRequest, UnknownEmailMessage, NoPayload)
    ensures forall i :: Present(email) && Present(password) && FirstWithEmail(st.users, email.text, i) ==>
      r == (if st.users[i].password == password.text then Reply(Ok, LoggedInMessage, UserPayload(Public(st.users[i])))
            else Reply(BadRequest, WrongPasswordMessage, NoPayload))
    ensures r.message == WrongPasswordMessage ==>
      exists i :: FirstWithEmail(st.users, email.text, i) && st.users[i].password != password.text
    ensures r.Success() ==>
      exists i :: FirstWithEmail(st.users, email.text, i) && st.users[i].password == password.text
        && r.payload == UserPayload(Public(st.users[i]))
  {
    match Authenticate(st.users, email, password)
    case MissingCredentials => Reply(BadRequest, CredentialsRequired, NoPayload)
    case UnknownEmail => Reply(BadRequest, UnknownEmailMessage, NoPayload)
    case WrongPassword => Reply(BadRequest, WrongPasswordMessage, NoPayload)
    case LoggedIn(user) => Reply(Ok, LoggedInMessage, UserPayload(user))
  }

  /** POST /api/contact. */
  function SubmitContact(st: Store, name: Input, email: Input, phone: Input, subject: Input, message: Input, now: int)
    : (r: Step<Store>)
    ensures r.reply.status == Ok || r.reply.status == BadRequest
    ensures r.reply.status == BadRequest <==>
      !Present(name) || !Present(email) || !Present(subject) || !Present(message)
    ensures !r.reply.Success() ==> r.store == st && r.reply == Reply(BadRequest, ContactFieldsRequired, NoPayload)
    ensures r.reply.Success() ==>
      && r.reply == Reply(Ok, ContactReceived, NoPayload)
      && |r.store.contacts| == |st.contacts| + 1
      && r.store.contacts[..|st.contacts|] == st.contacts
      && r.store.contacts[|st.contacts|]
         == Contact(st.contactIdCounter, name.text, email.text,
                    if Present(phone) then phone.text else NoPhone,
                    subject.text, message.text, now)
      && r.store == st.(contacts := r.store.contacts, contactIdCounter := st.contactIdCounter + 1)
      && r.reply.payload == NoPayload
  {
    if !Present(name) || !Present(email) || !Present(subject) || !Present(message) then
      Step(Reply(BadRequest, ContactFieldsRequired, NoPayload), st)
    else
      var contact := Contact(st.contactIdCounter, name.text, email.text, OrElse(phone, NoPhone),
                             subject.text, message.text, now);
      Step(Reply(Ok, ContactReceived, NoPayload),
           st.(contacts := st.contacts + [contact], contactIdCounter := st.contactIdCounter + 1))
  }

  /** POST /api/newsletter. A repeated email is a success that stores nothing. */
  function Subscribe(st: Store, email: Input, now: int): (r: Step<Store>)
    ensures r.reply.status == Ok || r.reply.status == BadRequest
    ensures r.reply.status == BadRequest <==> !Present(email) || '@' !in email.text
    ensures r.reply.payload == NoPayload
    ensures !r.reply.Success() ==> r.store == st
    ensures !Present(email) ==> r.reply == Reply(BadRequest, EmailRequired, NoPayload)
    ensures Present(email) && '@' !in email.text ==> r.reply == Reply(BadRequest, InvalidEmail, NoPayload)
    ensures Present(email) && '@' in email.text
      && (exists i :: 0 <= i < |st.newsletters| && st.newsletters[i].email == email.text)
      ==> r.store == st && r.reply == Reply(Ok, AlreadySubscribed, NoPayload)
    ensures Present(email) && '@' in email.text
      && (forall i :: 0 <= i < |st.newsletters| ==> st.newsletters[i].email != email.text)
      ==> r.store == st.(newsletters := st.newsletters + [Subscription(|st.newsletters| + 1, email.text, now)])
          && r.reply == Reply(Ok, Subscribed, NoPayload)
  {
    if !Present(email) then
      Step(Reply(BadRequest, EmailRequired, NoPayload), st)
    else if '@' !in email.text then
      Step(Reply(BadRequest, InvalidEmail, NoPayload), st)
    else if IndexOf(st.newsletters, SubscriptionEmail, email.text).Some? then
      Step(Reply(Ok, AlreadySubscribed, NoPayload), st)
    else
      var subscription := Subscription(|st.newsletters| + 1, email.text, now);
      Step(Reply(Ok, Subscribed, NoPayload), st.(newsletters := st.newsletters + [subscription]))
  }

  /** POST /api/cost-estimate. The saved estimate is echoed back. */
  function SaveEstimate(st: Store, selection: Selection, totalCost: Cost, now: int): (r: Step<Store>)
    ensures r.reply.status == Ok || r.reply.status == BadRequest
    ensures r.reply.status == BadRequest <==>
      selection.NoSelection? || |selection.items| == 0 || !CostPresent(totalCost) || totalCost.value <= 0
    ensures selection.NoSelection? || |selection.items| == 0
      ==> r.reply == Reply(BadRequest, NoProductSelected, NoPayload)
    ensures selection.Selection? && |selection.items| > 0 && (!CostPresent(totalCost) || totalCost.value <= 0)
      ==> r.reply == Reply(BadRequest, InvalidCost, NoPayload)
    ensures !r.reply.Success() ==> r.store == st && r.reply.payload == NoPayload
    ensures r.reply.Success() ==>
      && r.reply.message == EstimateSaved
      && r.reply.payload.EstimatePayload?
      && var e := r.reply.payload.estimate;
      && e == Estimate(st.estimateIdCounter, selection.items, totalCost.value, now)
      && r.store == st.(estimates := st.estimates + [e], estimateIdCounter := st.estimateIdCounter + 1)
  {
    if selection.NoSelection? || |selection.items| == 0 then
      Step(Reply(BadRequest, NoProductSelected, NoPayload), st)
    else if !CostPresent(totalCost) || totalCost.value <= 0 then
      Step(Reply(BadRequest, InvalidCost, NoPayload), st)
    else
      var estimate := Estimate(st.estimateIdCounter, selection.items, totalCost.value, now);
      Step(Reply(Ok, EstimateSaved, EstimatePayload(estimate)),
           st.(estimates := st.estimates + [estimate], estimateIdCounter := st.estimateIdCounter + 1))
  }

  /** GET /api/admin/contacts: every contact, oldest first. */
  function ListContacts(st: Store): (r: Reply)
    ensures r.Success() && r.payload == ContactsPayload(st.contacts)
  {
    Reply(Ok, "", ContactsPayload(st.contacts))
  }

  /** GET /api/admin/newsletters: every subscription, oldest first. */
  function ListNewsletters(st: Store): (r: Reply)
    ensures r.Success() && r.payload == NewslettersPayload(st.newsletters)
  {
    Reply(Ok, "", NewslettersPayload(st.newsletters))
  }

  /** GET /api/admin/users: every user without the password, oldest first. */
  function ListUsers(st: Store): (r: Reply)
    ensures r.Success() && r.payload.UsersPayload?
    ensures |r.payload.users| == |st.users|
    ensures forall i :: 0 <= i < |st.users| ==> r.payload.users[i] == View(st.users[i])
  {
    Reply(Ok, "", UsersPayload(Views(st.users)))
  }

  /** GET /api/admin/cost-estimates: every estimate, oldest first. */
  function ListEstimates(st: Store): (r: Reply)
    ensures r.Success() && r.payload == EstimatesPayload(st.estimates)
  {
    Reply(Ok, "", EstimatesPayload(st.estimates))
  }

  /** GET /api/admin/stats. `weekAgo` is the clock's "now minus seven
      days"; a user is recent when created strictly after it. */
  function Statistics(st: Store, weekAgo: int): (r: Reply)
    ensures r.Success() && r.payload.StatsPayload?
    ensures var s := r.payload.stats;
      && s.totalUsers == |st.users| && s.totalContacts == |st.contacts|
      && s.totalNewsletters == |st.newsletters| && s.totalEstimates == |st.estimates|
    ensures r.payload.stats.recentUsers <= |st.users|
    ensures r.payload.stats.recentUsers == |st.users| <==>
      forall i :: 0 <= i < |st.users| ==> st.users[i].createdAt > weekAgo
    ensures r.payload.stats.recentUsers == 0 <==>
      forall i :: 0 <= i < |st.users| ==> st.users[i].createdAt <= weekAgo
  {
    Reply(Ok, "", StatsPayload(Stats(
      |st.users|, |st.contacts|, |st.newsletters|, |st.estimates|,
      CountAbove(st.users, UserCreatedAt, weekAgo))))
  }

  /** GET /api/health: the record counts at time `now`. */
  function Health(st: Store, now: int): (r: Reply)
    ensures r.Success() && r.message == HealthMessage
    ensures r.payload == HealthPayload(now, |st.users|, |st.contacts|, |st.newsletters|, |st.estimates|)
  {
    Reply(Ok, HealthMessage, HealthPayload(now, |st.users|, |st.contacts|, |st.newsletters|, |st.estimates|))
  }

  /** DELETE /api/admin/contacts/:id. */
  function DeleteContact(st: Store, id: Option<int>): (r: Step<Store>)
    ensures r.reply.status == Ok || r.reply.status == NotFound
    ensures r.reply.status == NotFound <==>
      id.None? || forall j :: 0 <= j < |st.contacts| ==> st.contacts[j].id != id.value
    ensures r.reply == (if r.reply.Success() then Reply(Ok, ContactDeleted, NoPayload) else Reply(NotFound, ContactMissing, NoPayload))
    ensures !r.reply.Success() ==> r.store == st
    ensures r.reply.Success() ==>
      exists i :: 0 <= i < |st.contacts| && st.contacts[i].id == id.value
        && (forall j :: 0 <= j < i ==> st.contacts[j].id != id.value)
        && r.store == st.(contacts := RemoveAt(st.contacts, i))
  {
    match DeleteById(st.contacts, ContactId, id)
    case None => Step(Reply(NotFound, ContactMissing, NoPayload), st)
    case Some(rest) => Step(Reply(Ok, ContactDeleted, NoPayload), st.(contacts := rest))
  }

  /** DELETE /api/admin/newsletters/:id. */
  function DeleteNewsletter(st: Store, id: Option<int>): (r: Step<Store>)
    ensures r.reply.status == Ok || r.reply.status == NotFound
    ensures r.reply.status == NotFound <==>
      id.None? || forall j :: 0 <= j < |st.newsletters| ==> st.newsletters[j].id != id.value
    ensures r.reply == (if r.reply.Success() then Reply(Ok, SubscriberDeleted, NoPayload) else Reply(NotFound, SubscriberMissing, NoPayload))
    ensures !r.reply.Success() ==> r.store == st
    ensures r.reply.Success() ==>
      exists i :: 0 <= i < |st.newsletters| && st.newsletters[i].id == id.value
        && (forall j :: 0 <= j < i ==> st.newsletters[j].id != id.value)
        && r.store == st.(newsletters := RemoveAt(st.newsletters, i))
  {
    match DeleteById(st.newsletters, SubscriptionId, id)
    case None => Step(Reply(NotFound, SubscriberMissing, NoPayload), st)
    case Some(rest) => Step(Reply(Ok, SubscriberDeleted, NoPayload), st.(newsletters := rest))
  }

  /** DELETE /api/admin/users/:id. The id counter is left alone. */
  function DeleteUser(st: Store, id: Option<int>): (r: Step<Store>)
    ensures r.reply.status == Ok || r.reply.status == NotFound
    ensures r.reply.status == NotFound <==>
      id.None? || forall j :: 0 <= j < |st.users| ==> st.users[j].id != id.value
    ensures r.reply == (if r.reply.Success() then Reply(Ok, UserDeleted, NoPayload) else Reply(NotFound, UserMissing, NoPayload))
    ensures !r.reply.Success() ==> r.store == st
    ensures r.reply.Success() ==>
      exists i :: 0 <= i < |st.users| && st.users[i].id == id.value
        && (forall j :: 0 <= j < i ==> st.users[j].id != id.value)
        && r.store == st.(users := RemoveAt(st.users, i))
  {
    match DeleteById(st.users, UserId, id)
    case None => Step(Reply(NotFound, UserMissing, NoPayload), st)
    case Some(rest) => Step(Reply(Ok, UserDeleted, NoPayload), st.(users := rest))
  }

  /** DELETE /api/admin/estimates/:id. */
  function DeleteEstimate(st: Store, id: Option<int>): (r: Step<Store>)
    ensures r.reply.status == Ok || r.reply.status == NotFound
    ensures r.reply.status == NotFound <==>
      id.None? || forall j :: 0 <= j < |st.estimates| ==> st.estimates[j].id != id.value
    ensures r.reply == (if r.reply.Success() then Reply(Ok, EstimateDeleted, NoPayload) else Reply(NotFound, EstimateMissing, NoPayload))
    ensures !r.reply.Success() ==> r.store == st
    ensures r.reply.Success() ==>
      exists i :: 0 <= i < |st.estimates| && st.estimates[i].id == id.value
        && (forall j :: 0 <= j < i ==> st.estimates[j].id != id.value)
        && r.store == st.(estimates := RemoveAt(st.estimates, i))
  {
    match DeleteById(st.estimates, EstimateId, id)
    case None => Step(Reply(NotFound, EstimateMissing, NoPayload), st)
    case Some(rest) => Step(Reply(Ok, EstimateDeleted, NoPayload), st.(estimates := rest))
  }

  // ---------------------------------------------------------------------
  // Requests in sequence
  // ---------------------------------------------------------------------

  /** One request to any of the routes, with the clock readings it needs. */
  datatype Request =
    | RegisterRequest(username: Input, email: Input, password: Input, now: int)
    | LoginRequest(email: Input, password: Input)
    | ContactRequest(name: Input, email: Input, phone: Input, subject: Input, message: Input, now: int)
    | NewsletterRequest(email: Input, now: int)
    | EstimateRequest(selection: Selection, totalCost: Cost, now: int)
    | ListContactsRequest
    | ListNewslettersRequest
    | ListUsersRequest
    | ListEstimatesRequest
    | StatsRequest(weekAgo: int)
    | HealthRequest(now: int)
    | DeleteContactRequest(id: Option<int>)
    | DeleteNewsletterRequest(id: Option<int>)
    | DeleteUserRequest(id: Option<int>)
    | DeleteEstimateRequest(id: Option<int>)
  {
    predicate ReadOnly() {
      LoginRequest? || ListContactsRequest? || ListNewslettersRequest? || ListUsersRequest?
      || ListEstimatesRequest? || StatsRequest? || HealthRequest?
    }
  }

  /** Route a request to its handler. */
  function Handle(st: Store, req: Request): (r: Step<Store>)
    ensures req.ReadOnly() ==> r.store == st
  {
    match req
    case RegisterRequest(username, email, password, now) => Register(st, username, email, password, now)
    case LoginRequest(email, password) => Step(Login(st, email, password), st)
    case ContactRequest(name, email, phone, subject, message, now) =>
      SubmitContact(st, name, email, phone, subject, message, now)
    case NewsletterRequest(email, now) => Subscribe(st, email, now)
    case EstimateRequest(selection, totalCost, now) => SaveEstimate(st, selection, totalCost, now)
    case ListContactsRequest => Step(ListContacts(st), st)
    case ListNewslettersRequest => Step(ListNewsletters(st), st)
    case ListUsersRequest => Step(ListUsers(st), st)
    case ListEstimatesRequest => Step(ListEstimates(st), st)
    case StatsRequest(weekAgo) => Step(Statistics(st, weekAgo), st)
    case HealthRequest(now) => Step(Health(st, now), st)
    case DeleteContactRequest(id) => DeleteContact(st, id)
    case DeleteNewsletterRequest(id) => DeleteNewsletter(st, id)
    case DeleteUserRequest(id) => DeleteUser(st, id)
    case DeleteEstimateRequest(id) => DeleteEstimate(st, id)
  }

  /** The store after serving `reqs` one after another. */
  function Run(st: Store, reqs: seq<Request>): Store
    decreases |reqs|
  {
    if |reqs| == 0 then st else Run(Handle(st, reqs[0]).store, reqs[1..])
  }
}
