/**
fixed-server.js, the Smart Home Hub draft. Only user ids come from a
counter; contact, newsletter and estimate ids are `length + 1`. Validation
asks only that required fields be truthy, and there are no delete routes,
so every array only grows.
*/
module FixedServer {
  import opened Lists
  import opened Records
  import opened Accounts

  /** The in-memory database: four arrays and the user id counter. */
  datatype Store = Store(
    users: seq<User>,
    contacts: seq<Contact>,
    newsletters: seq<Subscription>,
    estimates: seq<Estimate>,
    userIdCounter: int)

  /** The store at process start. */
  const Initial: Store := Store([], [], [], [], 1)

  const AllFieldsRequired := "All fields are required"
  const UserExists := "User already exists with this email or username"
  const Registered := "User registered successfully!"
  const CredentialsRequired := "Email and password are required"
  const UnknownEmailMessage := "User not found"
  const WrongPasswordMessage := "Invalid password"
  const LoggedInMessage := "Login successful!"
  const ContactFieldsRequired := "Name, email, subject and message are required"
  const ContactReceived := "Your message has been received! We'll get back to you soon."
  const EmailRequired := "Email is required"
  const AlreadySubscribed := "You're already subscribed to our newsletter!"
  const Subscribed := "Thank you for subscribing to our newsletter!"
  const EstimateFieldsRequired := "Products and total cost are required"
  const EstimateSaved := "Cost estimate saved successfully!"

  predicate CompleteUser(u: User) {
    u.username != "" && u.email != "" && u.password != ""
  }

  /** What every reachable store satisfies. With nothing ever removed,
      each `length + 1` id equals its position plus one, and so does each
      user id. */
  ghost predicate Valid(st: Store) {
    && Distinct(st.users, UserName)
    && Distinct(st.users, UserEmail)
    && Every(st.users, CompleteUser)
    && Positional(st.users, UserId)
    && st.userIdCounter == |st.users| + 1
    && Positional(st.contacts, ContactId)
    && Distinct(st.newsletters, SubscriptionEmail)
    && Positional(st.newsletters, SubscriptionId)
    && Positional(st.estimates, EstimateId)
  }

  // ---------------------------------------------------------------------
  // Request handlers
  // ---------------------------------------------------------------------

  /** POST /api/register: no length checks. */
  function Register(st: Store, username: Input, email: Input, password: Input, now: int): (r: Step<Store>)
    ensures r.reply.status == Ok || r.reply.status == BadRequest
    ensures r.reply.status == BadRequest <==>
      || !Present(username) || !Present(email) || !Present(password)
      || exists i :: 0 <= i < |st.users| && (st.users[i].email == email.text || st.users[i].username == username.text)
    ensures !r.reply.Success() ==> r.store == st && r.reply.payload == NoPayload
    ensures !Present(username) || !Present(email) || !Present(password)
      ==> r.reply == Reply(BadRequest, AllFieldsRequired, NoPayload)
    ensures Present(username) && Present(email) && Present(password)
      && (exists i :: 0 <= i < |st.users| && (st.users[i].email == email.text || st.users[i].username == username.text))
      ==> r.reply == Reply(BadRequest, UserExists, NoPayload)
    ensures r.reply.Success() ==>
      && r.reply.message == Registered
      && r.store.users == st.users + [User(st.userIdCounter, username.text, email.text, password.text, now)]
      && r.store.userIdCounter == st.userIdCounter + 1
      && r.store == st.(users := r.store.users, userIdCounter := r.store.userIdCounter)
      && r.reply.payload == UserPayload(PublicUser(st.userIdCounter, username.text, email.text))
  {
    if !Present(username) || !Present(email) || !Present(password) then
      Step(Reply(BadRequest, AllFieldsRequired, NoPayload), st)
    else if Taken(st.users, username.text, email.text) then
      Step(Reply(BadRequest, UserExists, NoPayload), st)
    else
      var user := User(st.userIdCounter, username.text, email.text, password.text, now);
      Step(Reply(Ok, Registered, UserPayload(Public(user))),
           st.(users := st.users + [user], userIdCounter := st.userIdCounter + 1))
  }

  /** POST /api/login. It returns no store: login never changes state. */
  function Login(st: Store, email: Input, password: Input): (r: Reply)
    ensures r.status == Ok || r.status == BadRequest
    ensures !Present(email) || !Present(password) ==> r == Reply(BadRequest, CredentialsRequired, NoPayload)
    ensures Present(email) && Present(password) && (forall i :: 0 <= i < |st.users| ==> st.users[i].email != email.text)
      ==> r == Reply(BadRequest, UnknownEmailMessage, NoPayload)
    ensures forall i :: Present(email) && Present(password) && FirstWithEmail(st.users, email.text, i) ==>
      r == (if st.users[i].password == password.text then Reply(Ok, LoggedInMessage, UserPayload(Public(st.users[i])))
            else Reply(BadRequest, WrongPasswordMessage, NoPayload))
    ensures r.message == WrongPasswordMessage ==>
      exists i :: FirstWithEmail(st.users, email.text, i) && st.users[i].password != password.text
    ensures r.Success() ==>
      exists i :: FirstWithEmail(st.users, email.text, i) && st.users[i].password == password.text
        && r.payload == UserPayload(Public(st.users[i]))
  {
    match Authenticate(st.users, email, password)
    case MissingCredentials => Reply(BadRequest, CredentialsRequired, NoPayload)
    case UnknownEmail => Reply(BadRequest, UnknownEmailMessage, NoPayload)
    case WrongPassword => Reply(BadRequest, WrongPasswordMessage, NoPayload)
    case LoggedIn(user) => Reply(Ok, LoggedInMessage, UserPayload(user))
  }

  /** POST /api/contact: id `length + 1`, phone defaults to "". */
  function SubmitContact(st: Store, name: Input, email: Input, phone: Input, subject: Input, message: Input, now: int)
    : (r: Step<Store>)
    ensures r.reply.status == Ok || r.reply.status == BadRequest
    ensures r.reply.status == BadRequest <==>
      !Present(name) || !Present(email) || !Present(subject) || !Present(message)
    ensures !r.reply.Success() ==> r.store == st && r.reply == Reply(BadRequest, ContactFieldsRequired, NoPayload)
    ensures r.reply.Success() ==>
      && r.reply == Reply(Ok, ContactReceived, NoPayload)
      && |r.store.contacts| == |st.contacts| + 1
      && r.store.contacts[..|st.contacts|] == st.contacts
      && r.store.contacts[|st.contacts|]
         == Contact(|st.contacts| + 1, name.text, email.text,
                    if Present(phone) then phone.text else "",
                    subject.text, message.text, now)
      && r.store == st.(contacts := r.store.contacts)
      && r.reply.payload == NoPayload
  {
    if !Present(name) || !Present(email) || !Present(subject) || !Present(message) then
      Step(Reply(BadRequest, ContactFieldsRequired, NoPayload), st)
    else
      var contact := Contact(|st.contacts| + 1, name.text, email.text, OrElse(phone, ""),
                             subject.text, message.text, now);
      Step(Reply(Ok, ContactReceived, NoPayload), st.(contacts := st.contacts + [contact]))
  }

  /** POST /api/newsletter: no `@` check. A repeated email is a success
      that stores nothing. */
  function Subscribe(st: Store, email: Input, now: int): (r: Step<Store>)
    ensures r.reply.status == Ok || r.reply.status == BadRequest
    ensures r.reply.status == BadRequest <==> !Present(email)
    ensures r.reply.payload == NoPayload
    ensures !r.reply.Success() ==> r.store == st && r.reply == Reply(BadRequest, EmailRequired, NoPayload)
    ensures Present(email) && (exists i :: 0 <= i < |st.newsletters| && st.newsletters[i].email == email.text)
      ==> r.store == st && r.reply == Reply(Ok, AlreadySubscribed, NoPayload)
    ensures Present(email) && (forall i :: 0 <= i < |st.newsletters| ==> st.newsletters[i].email != email.text)
      ==> r.store == st.(newsletters := st.newsletters + [Subscription(|st.newsletters| + 1, email.text, now)])
          && r.reply == Reply(Ok, Subscribed, NoPayload)
  {
    if !Present(email) then
      Step(Reply(BadRequest, EmailRequired, NoPayload), st)
    else if IndexOf(st.newsletters, SubscriptionEmail, email.text).Some? then
      Step(Reply(Ok, AlreadySubscribed, NoPayload), st)
    else
      var subscription := Subscription(|st.newsletters| + 1, email.text, now);
      Step(Reply(Ok, Subscribed, NoPayload), st.(newsletters := st.newsletters + [subscription]))
  }

  /** POST /api/cost-estimate: only falsy fields are refused, so an empty
      product array and a negative cost are saved. */
  function SaveEstimate(st: Store, selection: Selection, totalCost: Cost, now: int): (r: Step<Store>)
    ensures r.reply.status == Ok || r.reply.status == BadRequest
    ensures r.reply.status == BadRequest <==> selection.NoSelection? || !CostPresent(totalCost)
    ensures !r.reply.Success() ==> r.store == st && r.reply == Reply(BadRequest, EstimateFieldsRequired, NoPayload)
    ensures r.reply.Success() ==>
      && r.reply.message == EstimateSaved
      && r.reply.payload.EstimatePayload?
      && var e := r.reply.payload.estimate;
      && e == Estimate(|st.estimates| + 1, selection.items, totalCost.value, now)
      && r.store == st.(estimates := st.estimates + [e])
  {
    if selection.NoSelection? || !CostPresent(totalCost) then
      Step(Reply(BadRequest, EstimateFieldsRequired, NoPayload), st)
    else
      var estimate := Estimate(|st.estimates| + 1, selection.items, totalCost.value, now);
      Step(Reply(Ok, EstimateSaved, EstimatePayload(estimate)), st.(estimates := st.estimates + [estimate]))
  }

  /** GET /api/contacts: every contact, oldest first. */
  function ListContacts(st: Store): (r: Reply)
    ensures r.Success() && r.payload == ContactsPayload(st.contacts)
  {
    Reply(Ok, "", ContactsPayload(st.contacts))
  }

  /** GET /api/newsletters: every subscription, oldest first. */
  function ListNewsletters(st: Store): (r: Reply)
    ensures r.Success() && r.payload == NewslettersPayload(st.newsletters)
  {
    Reply(Ok, "", NewslettersPayload(st.newsletters))
  }

  /** GET /api/users: every user without the password, oldest first. */
  function ListUsers(st: Store): (r: Reply)
    ensures r.Success() && r.payload.UsersPayload?
    ensures |r.payload.users| == |st.users|
    ensures forall i :: 0 <= i < |st.users| ==> r.payload.users[i] == View(st.users[i])
  {
    Reply(Ok, "", UsersPayload(Views(st.users)))
  }

  // ---------------------------------------------------------------------
  // Requests in sequence
  // ---------------------------------------------------------------------

  /** One request to any of the routes, with the clock reading it needs. */
  datatype Request =
    | RegisterRequest(username: Input, email: Input, password: Input, now: int)
    | LoginRequest(email: Input, password: Input)
    | ContactRequest(name: Input, email: Input, phone: Input, subject: Input, message: Input, now: int)
    | NewsletterRequest(email: Input, now: int)
    | EstimateRequest(selection: Selection, totalCost: Cost, now: int)
    | ListContactsRequest
    | ListNewslettersRequest
    | ListUsersRequest
  {
    predicate ReadOnly() {
      LoginRequest? || ListContactsRequest? || ListNewslettersRequest? || ListUsersRequest?
    }
  }

  /** Route a request to its handler. */
  function Handle(st: Store, req: Request): (r: Step<Store>)
    ensures req.ReadOnly() ==> r.store == st
  {
    match req
    case RegisterRequest(username, email, password, now) => Register(st, username, email, password, now)
    case LoginRequest(email, password) => Step(Login(st, email, password), st)
    case ContactRequest(name, email, phone, subject, message, now) =>
      SubmitContact(st, name, email, phone, subject, message, now)
    case NewsletterRequest(email, now) => Subscribe(st, email, now)
    case EstimateRequest(selection, totalCost, now) => SaveEstimate(st, selection, totalCost, now)
    case ListContactsRequest => Step(ListContacts(st), st)
    case ListNewslettersRequest => Step(ListNewsletters(st), st)
    case ListUsersRequest => Step(ListUsers(st), st)
  }

  /** The store after serving `reqs` one after another. */
  function Run(st: Store, reqs: seq<Request>): Store
    decreases |reqs|
  {
    if |reqs| == 0 then st else Run(Handle(st, reqs[0]).store, reqs[1..])
  }
}
