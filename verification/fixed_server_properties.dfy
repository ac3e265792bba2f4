/**
What the fixed-server.js handlers guarantee across requests: every handler
keeps the store invariant, so ids are positions plus one and strictly
increase, usernames, user emails and newsletter emails stay unique, the
arrays only grow, and login finds what registration stored.
*/
module FixedServerProperties {
  import opened Lists
  import opened Records
  import opened Accounts
  import opened FixedServer

  lemma InitialValid()
    ensures Valid(Initial)
  {
  }

  lemma RegisterKeepsValid(st: Store, username: Input, email: Input, password: Input, now: int)
    requires Valid(st)
    ensures Valid(Register(st, username, email, password, now).store)
  {
    var r := Register(st, username, email, password, now);
    if r.reply.Success() {
      var u := User(st.userIdCounter, username.text, email.text, password.text, now);
      AppendUntaken(st.users, u);
    }
  }

  lemma SubmitContactKeepsValid(st: Store, name: Input, email: Input, phone: Input, subject: Input, message: Input, now: int)
    requires Valid(st)
    ensures Valid(SubmitContact(st, name, email, phone, subject, message, now).store)
  {
    var r := SubmitContact(st, name, email, phone, subject, message, now);
    if r.reply.Success() {
      assert r.store.contacts == st.contacts + [r.store.contacts[|st.contacts|]];
    }
  }

  lemma SubscribeKeepsValid(st: Store, email: Input, now: int)
    requires Valid(st)
    ensures Valid(Subscribe(st, email, now).store)
  {
  }

  lemma SaveEstimateKeepsValid(st: Store, selection: Selection, totalCost: Cost, now: int)
    requires Valid(st)
    ensures Valid(SaveEstimate(st, selection, totalCost, now).store)
  {
  }

  /** Every route keeps the invariant. */
  lemma HandleKeepsValid(st: Store, req: Request)
    requires Valid(st)
    ensures Valid(Handle(st, req).store)
  {
    match req
    case RegisterRequest(username, email, password, now) => RegisterKeepsValid(st, username, email, password, now);
    case ContactRequest(name, email, phone, subject, message, now) =>
      SubmitContactKeepsValid(st, name, email, phone, subject, message, now);
    case NewsletterRequest(email, now) => SubscribeKeepsValid(st, email, now);
    case EstimateRequest(selection, totalCost, now) => SaveEstimateKeepsValid(st, selection, totalCost, now);
    case _ =>
  }

  /** Every store reachable by any sequence of requests satisfies the
      invariant. */
  lemma {:induction false} RunKeepsValid(st: Store, reqs: seq<Request>)
    requires Valid(st)
    ensures Valid(Run(st, reqs))
    decreases |reqs|
  {
    if |reqs| > 0 {
      HandleKeepsValid(st, reqs[0]);
      RunKeepsValid(Handle(st, reqs[0]).store, reqs[1..]);
    }
  }

  /** In a valid store, ids strictly increase in every array (so they are
      unique), and the user counter is above every user id. */
  lemma IdsIncrease(st: Store)
    requires Valid(st)
    ensures Increasing(st.users, UserId) && Below(st.users, UserId, st.userIdCounter)
    ensures Increasing(st.contacts, ContactId)
    ensures Increasing(st.newsletters, SubscriptionId)
    ensures Increasing(st.estimates, EstimateId)
  {
    PositionalIsIncreasing(st.users, UserId);
    PositionalIsIncreasing(st.contacts, ContactId);
    PositionalIsIncreasing(st.newsletters, SubscriptionId);
    PositionalIsIncreasing(st.estimates, EstimateId);
  }

  /** One request only ever appends. */
  lemma HandleAppends(st: Store, req: Request)
    ensures var next := Handle(st, req).store;
      && st.users <= next.users && st.contacts <= next.contacts
      && st.newsletters <= next.newsletters && st.estimates <= next.estimates
      && next.userIdCounter >= st.userIdCounter
  {
    match req
    case ContactRequest(name, email, phone, subject, message, now) =>
      var r := SubmitContact(st, name, email, phone, subject, message, now);
      if r.reply.Success() {
        assert st.contacts == r.store.contacts[..|st.contacts|];
      }
    case _ =>
  }

  /** The arrays only grow: what a store holds is a prefix of what it holds
      after any further requests. */
  lemma {:induction false} AppendOnly(st: Store, reqs: seq<Request>)
    ensures var end := Run(st, reqs);
      && st.users <= end.users && st.contacts <= end.contacts
      && st.newsletters <= end.newsletters && st.estimates <= end.estimates
      && end.userIdCounter >= st.userIdCounter
    decreases |reqs|
  {
    if |reqs| > 0 {
      HandleAppends(st, reqs[0]);
      AppendOnly(Handle(st, reqs[0]).store, reqs[1..]);
    }
  }

  /** With the invariant, login succeeds exactly for a stored email and
      password pair. */
  lemma LoginSucceedsIff(st: Store, email: Input, password: Input)
    requires Valid(st)
    ensures Login(st, email, password).Success() <==>
      && Present(email) && Present(password)
      && exists i :: 0 <= i < |st.users| && st.users[i].email == email.text && st.users[i].password == password.text
  {
    if Present(email) && Present(password) {
      LoginExact(st.users, email, password);
    }
  }

  /** Registering and then logging in with the same email and password
      answers with the id, username and email registration returned. */
  lemma RegisterThenLogin(st: Store, username: Input, email: Input, password: Input, now: int)
    requires Valid(st)
    requires Register(st, username, email, password, now).reply.Success()
    ensures var r := Register(st, username, email, password, now);
      Login(r.store, email, password) == Reply(Ok, LoggedInMessage, r.reply.payload)
  {
    var r := Register(st, username, email, password, now);
    RegisterKeepsValid(st, username, email, password, now);
    var i := |st.users|;
    assert r.store.users[i].email == email.text && r.store.users[i].password == password.text;
    LoginExact(r.store.users, email, password);
  }

  /** In a valid store each email has at most one subscription. */
  lemma NewsletterEmailsAtMostOnce(st: Store)
    requires Valid(st)
    ensures forall e :: Occurrences(st.newsletters, SubscriptionEmail, e) <= 1
  {
    DistinctIffAtMostOnce(st.newsletters, SubscriptionEmail);
  }

  /** The user listing cannot reveal passwords. */
  lemma ListUsersHidesPasswords(st: Store, other: Store)
    requires |st.users| == |other.users|
    requires forall i :: 0 <= i < |st.users| ==> st.users[i].(password := other.users[i].password) == other.users[i]
    ensures ListUsers(st) == ListUsers(other)
  {
    ViewsIgnorePasswords(st.users, other.users);
  }
}
