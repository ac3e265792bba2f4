/**
The vocabulary both server drafts share: request fields as JavaScript sees
them, the four record kinds held in memory, and the response envelope
`{success, message, ...payload}` with its HTTP status.
*/
module Records {

  /** A string field of a request body. JavaScript treats an absent field
      and the empty string alike: both are falsy, i.e. "missing". */
  datatype Input = Absent | Given(text: string)

  /** JavaScript truthiness of a string field. */
  predicate Present(f: Input) {
    f.Given? && |f.text| > 0
  }

  /** `f || fallback`: the field when it is truthy, the fallback otherwise. */
  function OrElse(f: Input, fallback: string): string {
    if Present(f) then f.text else fallback
  }

  /** The numeric `totalCost` field. Only `!totalCost` (absent or 0 is
      falsy) and `totalCost <= 0` are ever asked of it. */
  datatype Cost = NoCost | Cost(value: int)

  predicate CostPresent(c: Cost) {
    c.Cost? && c.value != 0
  }

  /** A reference to a catalogue product, carried through unexamined. */
  type ProductRef = string

  /** The `selectedProducts` field: absent, or an array. An array is truthy
      even when it is empty. */
  datatype Selection = NoSelection | Selection(items: seq<ProductRef>)

  datatype User = User(id: int, username: string, email: string, password: string, createdAt: int)

  function UserId(u: User): int { u.id }
  function UserName(u: User): string { u.username }
  function UserEmail(u: User): string { u.email }
  function UserCreatedAt(u: User): int { u.createdAt }

  datatype Contact = Contact(
    id: int, name: string, email: string, phone: string,
    subject: string, message: string, createdAt: int)

  function ContactId(c: Contact): int { c.id }

  datatype Subscription = Subscription(id: int, email: string, subscribedAt: int)

  function SubscriptionId(n: Subscription): int { n.id }
  function SubscriptionEmail(n: Subscription): string { n.email }

  datatype Estimate = Estimate(id: int, selectedProducts: seq<ProductRef>, totalCost: int, createdAt: int)

  function EstimateId(e: Estimate): int { e.id }

  /** The `user` object of the register and login responses. */
  datatype PublicUser = PublicUser(id: int, username: string, email: string)

  function Public(u: User): PublicUser {
    PublicUser(u.id, u.username, u.email)
  }

  /** One entry of the user listing: a user without the password. */
  datatype UserView = UserView(id: int, username: string, email: string, createdAt: int)

  function View(u: User): UserView {
    UserView(u.id, u.username, u.email, u.createdAt)
  }

  /** `users.map(user => ({id, username, email, createdAt}))`. */
  function Views(users: seq<User>): (r: seq<UserView>)
    ensures |r| == |users|
    ensures forall i :: 0 <= i < |users| ==>
      r[i].id == users[i].id && r[i].username == users[i].username
      && r[i].email == users[i].email && r[i].createdAt == users[i].createdAt
  {
    if |users| == 0 then [] else [View(users[0])] + Views(users[1..])
  }

  /** The listing cannot depend on passwords: two user sequences that differ
      at most in passwords list identically. */
  lemma {:induction false} ViewsIgnorePasswords(a: seq<User>, b: seq<User>)
    requires |a| == |b|
    requires forall i :: 0 <= i < |a| ==> a[i].(password := b[i].password) == b[i]
    ensures Views(a) == Views(b)
  {
    if |a| > 0 {
      ViewsIgnorePasswords(a[1..], b[1..]);
    }
  }

  /** The HTTP status of a response: 200, 400 or 404. */
  datatype Status = Ok | BadRequest | NotFound

  /** The body of the admin statistics route. */
  datatype Stats = Stats(
    totalUsers: nat, totalContacts: nat, totalNewsletters: nat,
    totalEstimates: nat, recentUsers: nat)

  /** What a response carries besides `success` and `message`. */
  datatype Payload =
    | NoPayload
    | UserPayload(user: PublicUser)
    | EstimatePayload(estimate: Estimate)
    | UsersPayload(users: seq<UserView>)
    | ContactsPayload(contacts: seq<Contact>)
    | NewslettersPayload(newsletters: seq<Subscription>)
    | EstimatesPayload(estimates: seq<Estimate>)
    | StatsPayload(stats: Stats)
    | HealthPayload(timestamp: int, userCount: nat, contactCount: nat,
                    newsletterCount: nat, estimateCount: nat)

  /** A response. Its `success` field is true exactly on status 200; a
      response without a `message` field carries "". */
  datatype Reply = Reply(status: Status, message: string, payload: Payload) {
    predicate Success() {
      status == Ok
    }
  }

  /** The outcome of one request against a store of type `S`. */
  datatype Step<S> = Step(reply: Reply, store: S)
}
