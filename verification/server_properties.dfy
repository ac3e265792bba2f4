/**
What the server.js handlers guarantee across requests: every handler keeps
the store invariant, ids from the counters are never handed out twice,
login finds what registration stored, deleting by a counter id is final,
and the one place where that fails: newsletter ids.
*/
module ServerProperties {
  import opened Lists
  import opened Records
  import opened Accounts
  import opened Server

  lemma InitialValid()
    ensures Valid(Initial)
  {
  }

  lemma RegisterKeepsValid(st: Store, username: Input, email: Input, password: Input, now: int)
    requires Valid(st)
    ensures Valid(Register(st, username, email, password, now).store)
  {
    var r := Register(st, username, email, password, now);
    if r.reply.Success() {
      var u := User(st.userIdCounter, username.text, email.text, password.text, now);
      AppendUntaken(st.users, u);
    }
  }

  lemma SubmitContactKeepsValid(st: Store, name: Input, email: Input, phone: Input, subject: Input, message: Input, now: int)
    requires Valid(st)
    ensures Valid(SubmitContact(st, name, email, phone, subject, message, now).store)
  {
    var r := SubmitContact(st, name, email, phone, subject, message, now);
    if r.reply.Success() {
      assert r.store.contacts == st.contacts + [r.store.contacts[|st.contacts|]];
    }
  }

  lemma SubscribeKeepsValid(st: Store, email: Input, now: int)
    requires Valid(st)
    ensures Valid(Subscribe(st, email, now).store)
  {
  }

  lemma SaveEstimateKeepsValid(st: Store, selection: Selection, totalCost: Cost, now: int)
    requires Valid(st)
    ensures Valid(SaveEstimate(st, selection, totalCost, now).store)
  {
  }

  lemma DeleteContactKeepsValid(st: Store, id: Option<int>)
    requires Valid(st)
    ensures Valid(DeleteContact(st, id).store)
  {
    var r := DeleteContact(st, id);
    if r.reply.Success() {
      var i :| 0 <= i < |st.contacts| && r.store == st.(contacts := RemoveAt(st.contacts, i));
      // The invariant says nothing per contact and nothing about unique
      // contact fields, so the `Every` test and the `Distinct` key are
      // placeholders; only the id clauses are used.
      RemoveAtKeeps(st.contacts, i, (c: Contact) => true, ContactId, ContactId, st.contactIdCounter);
    }
  }

  lemma DeleteNewsletterKeepsValid(st: Store, id: Option<int>)
    requires Valid(st)
    ensures Valid(DeleteNewsletter(st, id).store)
  {
    var r := DeleteNewsletter(st, id);
    if r.reply.Success() {
      var i :| 0 <= i < |st.newsletters| && r.store == st.(newsletters := RemoveAt(st.newsletters, i));
      // Newsletter ids are not part of the invariant, so only the `Every`
      // and `Distinct` conclusions are used here; the id and bound are
      // placeholders the id clauses need.
      RemoveAtKeeps(st.newsletters, i, HasAt, SubscriptionEmail, SubscriptionId, 0);
    }
  }

  lemma DeleteUserKeepsValid(st: Store, id: Option<int>)
    requires Valid(st)
    ensures Valid(DeleteUser(st, id).store)
  {
    var r := DeleteUser(st, id);
    if r.reply.Success() {
      var i :| 0 <= i < |st.users| && r.store == st.(users := RemoveAt(st.users, i));
      RemoveAtKeeps(st.users, i, AdmissibleUser, UserName, UserId, st.userIdCounter);
      RemoveAtKeeps(st.users, i, AdmissibleUser, UserEmail, UserId, st.userIdCounter);
    }
  }

  lemma DeleteEstimateKeepsValid(st: Store, id: Option<int>)
    requires Valid(st)
    ensures Valid(DeleteEstimate(st, id).store)
  {
    var r := DeleteEstimate(st, id);
    if r.reply.Success() {
      var i :| 0 <= i < |st.estimates| && r.store == st.(estimates := RemoveAt(st.estimates, i));
      // No estimate field must be unique, so the `Distinct` key is a
      // placeholder; the `Every` and id clauses are used.
      RemoveAtKeeps(st.estimates, i, AdmissibleEstimate, EstimateId, EstimateId, st.estimateIdCounter);
    }
  }

  /** Every route keeps the invariant. */
  lemma HandleKeepsValid(st: Store, req: Request)
    requires Valid(st)
    ensures Valid(Handle(st, req).store)
  {
    match req
    case RegisterRequest(username, email, password, now) => RegisterKeepsValid(st, username, email, password, now);
    case ContactRequest(name, email, phone, subject, message, now) =>
      SubmitContactKeepsValid(st, name, email, phone, subject, message, now);
    case NewsletterRequest(email, now) => SubscribeKeepsValid(st, email, now);
    case EstimateRequest(selection, totalCost, now) => SaveEstimateKeepsValid(st, selection, totalCost, now);
    case DeleteContactRequest(id) => DeleteContactKeepsValid(st, id);
    case DeleteNewsletterRequest(id) => DeleteNewsletterKeepsValid(st, id);
    case DeleteUserRequest(id) => DeleteUserKeepsValid(st, id);
    case DeleteEstimateRequest(id) => DeleteEstimateKeepsValid(st, id);
    case _ =>
  }

  /** Every store reachable from the initial one by any sequence of requests
      has unique usernames, unique emails, unique newsletter emails and
      strictly increasing counter ids. */
  lemma {:induction false} RunKeepsValid(st: Store, reqs: seq<Request>)
    requires Valid(st)
    ensures Valid(Run(st, reqs))
    decreases |reqs|
  {
    if |reqs| > 0 {
      HandleKeepsValid(st, reqs[0]);
      RunKeepsValid(Handle(st, reqs[0]).store, reqs[1..]);
    }
  }

  lemma RemovedWasPresent<T>(s: seq<T>, i: nat, x: T)
    requires i < |s| && x in RemoveAt(s, i)
    ensures x in s
  {
    assert multiset(RemoveAt(s, i))[x] > 0;
  }

  /** One request never lowers a counter, and a record it adds carries an
      id at or above the counter it found. */
  lemma HandleIssuesFreshIds(st: Store, req: Request)
    ensures var next := Handle(st, req).store;
      && next.userIdCounter >= st.userIdCounter
      && next.contactIdCounter >= st.contactIdCounter
      && next.estimateIdCounter >= st.estimateIdCounter
      && (forall u :: u in next.users ==> u in st.users || u.id >= st.userIdCounter)
      && (forall c :: c in next.contacts ==> c in st.contacts || c.id >= st.contactIdCounter)
      && (forall e :: e in next.estimates ==> e in st.estimates || e.id >= st.estimateIdCounter)
  {
    var next := Handle(st, req).store;
    match req
    case DeleteContactRequest(id) =>
      if DeleteContact(st, id).reply.Success() {
        var i :| 0 <= i < |st.contacts| && next == st.(contacts := RemoveAt(st.contacts, i));
        forall c | c in next.contacts ensures c in st.contacts { RemovedWasPresent(st.contacts, i, c); }
      }
    case DeleteUserRequest(id) =>
      if DeleteUser(st, id).reply.Success() {
        var i :| 0 <= i < |st.users| && next == st.(users := RemoveAt(st.users, i));
        forall u | u in next.users ensures u in st.users { RemovedWasPresent(st.users, i, u); }
      }
    case DeleteEstimateRequest(id) =>
      if DeleteEstimate(st, id).reply.Success() {
        var i :| 0 <= i < |st.estimates| && next == st.(estimates := RemoveAt(st.estimates, i));
        forall e | e in next.estimates ensures e in st.estimates { RemovedWasPresent(st.estimates, i, e); }
      }
    case _ =>
  }

  /** Ids are never reused: a user, contact or estimate present after any
      sequence of requests either was already there or has an id at or
      above the counter at the start, and so differs from every id ever
      issued before, including those of records deleted since. */
  lemma {:induction false} IdsNeverReused(st: Store, reqs: seq<Request>)
    ensures var end := Run(st, reqs);
      && end.userIdCounter >= st.userIdCounter
      && end.contactIdCounter >= st.contactIdCounter
      && end.estimateIdCounter >= st.estimateIdCounter
      && (forall u :: u in end.users ==> u in st.users || u.id >= st.userIdCounter)
      && (forall c :: c in end.contacts ==> c in st.contacts || c.id >= st.contactIdCounter)
      && (forall e :: e in end.estimates ==> e in st.estimates || e.id >= st.estimateIdCounter)
    decreases |reqs|
  {
    if |reqs| > 0 {
      HandleIssuesFreshIds(st, reqs[0]);
      IdsNeverReused(Handle(st, reqs[0]).store, reqs[1..]);
    }
  }

  /** With the invariant, login succeeds exactly for a stored email and
      password pair. */
  lemma LoginSucceedsIff(st: Store, email: Input, password: Input)
    requires Valid(st)
    ensures Login(st, email, password).Success() <==>
      && Present(email) && Present(password)
      && exists i :: 0 <= i < |st.users| && st.users[i].email == email.text && st.users[i].password == password.text
  {
    if Present(email) && Present(password) {
      LoginExact(st.users, email, password);
    }
  }

  /** Registering and then logging in with the same email and password
      answers with the id, username and email registration returned. */
  lemma RegisterThenLogin(st: Store, username: Input, email: Input, password: Input, now: int)
    requires Valid(st)
    requires Register(st, username, email, password, now).reply.Success()
    ensures var r := Register(st, username, email, password, now);
      Login(r.store, email, password) == Reply(Ok, LoggedInMessage, r.reply.payload)
  {
    var r := Register(st, username, email, password, now);
    RegisterKeepsValid(st, username, email, password, now);
    var i := |st.users|;
    assert r.store.users[i].email == email.text && r.store.users[i].password == password.text;
    LoginExact(r.store.users, email, password);
  }

  /** A second registration with the same email fails, whatever the username. */
  lemma RegisterTwiceFails(st: Store, username: Input, username2: Input, email: Input, password: Input, password2: Input, now: int, later: int)
    requires Register(st, username, email, password, now).reply.Success()
    ensures Register(Register(st, username, email, password, now).store, username2, email, password2, later).reply.status == BadRequest
  {
    var s := Register(st, username, email, password, now).store;
    assert s.users[|st.users|].email == email.text;
  }

  /** Deleting a user is final: a second delete of the same id is 404, and
      the listing no longer shows that id. */
  lemma DeleteUserIsFinal(st: Store, id: Option<int>)
    requires Valid(st)
    requires DeleteUser(st, id).reply.Success()
    ensures var after := DeleteUser(st, id).store;
      && |after.users| == |st.users| - 1
      && DeleteUser(after, id).reply.status == NotFound
      && forall v :: v in ListUsers(after).payload.users ==> v.id != id.value
  {
    IncreasingIsDistinct(st.users, UserId);
    DeleteByIdOnce(st.users, UserId, id);
  }

  lemma DeleteContactIsFinal(st: Store, id: Option<int>)
    requires Valid(st)
    requires DeleteContact(st, id).reply.Success()
    ensures var after := DeleteContact(st, id).store;
      && |after.contacts| == |st.contacts| - 1
      && DeleteContact(after, id).reply.status == NotFound
      && forall c :: c in ListContacts(after).payload.contacts ==> c.id != id.value
  {
    IncreasingIsDistinct(st.contacts, ContactId);
    DeleteByIdOnce(st.contacts, ContactId, id);
  }

  lemma DeleteEstimateIsFinal(st: Store, id: Option<int>)
    requires Valid(st)
    requires DeleteEstimate(st, id).reply.Success()
    ensures var after := DeleteEstimate(st, id).store;
      && |after.estimates| == |st.estimates| - 1
      && DeleteEstimate(after, id).reply.status == NotFound
      && forall e :: e in ListEstimates(after).payload.estimates ==> e.id != id.value
  {
    IncreasingIsDistinct(st.estimates, EstimateId);
    DeleteByIdOnce(st.estimates, EstimateId, id);
  }

  /** In a valid store each email has at most one subscription. */
  lemma NewsletterEmailsAtMostOnce(st: Store)
    requires Valid(st)
    ensures forall e :: Occurrences(st.newsletters, SubscriptionEmail, e) <= 1
  {
    DistinctIffAtMostOnce(st.newsletters, SubscriptionEmail);
  }

  /** A new, well-formed email is stored with id `length + 1`. */
  lemma SubscribeNew(st: Store, email: string, now: int)
    requires email != "" && '@' in email
    requires forall i :: 0 <= i < |st.newsletters| ==> st.newsletters[i].email != email
    ensures Handle(st, NewsletterRequest(Given(email), now)).store
         == st.(newsletters := st.newsletters + [Subscription(|st.newsletters| + 1, email, now)])
  {
  }

  /** Deleting the id of the oldest subscription removes that subscription. */
  lemma DeleteOldestSubscription(st: Store, id: int)
    requires |st.newsletters| > 0 && st.newsletters[0].id == id
    ensures Handle(st, DeleteNewsletterRequest(Some(id))).reply.Success()
    ensures Handle(st, DeleteNewsletterRequest(Some(id))).store == st.(newsletters := st.newsletters[1..])
  {
    assert RemoveAt(st.newsletters, 0) == st.newsletters[1..];
  }

  /** Subscribe a and b (ids 1 and 2), delete id 1, subscribe c. */
  const CollisionRequests: seq<Request> := [
    NewsletterRequest(Given("a@x.com"), 0),
    NewsletterRequest(Given("b@x.com"), 1),
    DeleteNewsletterRequest(Some(1)),
    NewsletterRequest(Given("c@x.com"), 2)]

  lemma CollisionStep1()
    ensures Handle(Initial, CollisionRequests[0]).store
         == Initial.(newsletters := [Subscription(1, "a@x.com", 0)])
  {
    assert "a@x.com"[1] == '@';
    SubscribeNew(Initial, "a@x.com", 0);
  }

  lemma CollisionStep2()
    ensures Handle(Initial.(newsletters := [Subscription(1, "a@x.com", 0)]), CollisionRequests[1]).store
         == Initial.(newsletters := [Subscription(1, "a@x.com", 0), Subscription(2, "b@x.com", 1)])
  {
    assert "b@x.com"[1] == '@';
    assert "a@x.com"[0] != "b@x.com"[0];
    SubscribeNew(Initial.(newsletters := [Subscription(1, "a@x.com", 0)]), "b@x.com", 1);
  }

  lemma CollisionStep3()
    ensures Handle(Initial.(newsletters := [Subscription(1, "a@x.com", 0), Subscription(2, "b@x.com", 1)]),
                   CollisionRequests[2]).store
         == Initial.(newsletters := [Subscription(2, "b@x.com", 1)])
  {
    DeleteOldestSubscription(Initial.(newsletters := [Subscription(1, "a@x.com", 0), Subscription(2, "b@x.com", 1)]), 1);
  }

  lemma CollisionStep4()
    ensures Handle(Initial.(newsletters := [Subscription(2, "b@x.com", 1)]), CollisionRequests[3]).store
         == Initial.(newsletters := [Subscription(2, "b@x.com", 1), Subscription(2, "c@x.com", 2)])
  {
    assert "c@x.com"[1] == '@';
    assert "b@x.com"[0] != "c@x.com"[0];
    SubscribeNew(Initial.(newsletters := [Subscription(2, "b@x.com", 1)]), "c@x.com", 2);
  }

  /** Newsletter ids are `length + 1`, so after a delete a new subscriber
      gets the id of a surviving one, and a delete by that id then succeeds
      twice. */
  lemma NewsletterIdsCollide()
    ensures var end := Run(Initial, CollisionRequests);
      && end.newsletters == [Subscription(2, "b@x.com", 1), Subscription(2, "c@x.com", 2)]
      && DeleteNewsletter(end, Some(2)).reply.Success()
      && DeleteNewsletter(DeleteNewsletter(end, Some(2)).store, Some(2)).reply.Success()
  {
    var reqs := CollisionRequests;
    var b := Subscription(2, "b@x.com", 1);
    var c := Subscription(2, "c@x.com", 2);
    var s1 := Initial.(newsletters := [Subscription(1, "a@x.com", 0)]);
    var s2 := Initial.(newsletters := [Subscription(1, "a@x.com", 0), b]);
    var s3 := Initial.(newsletters := [b]);
    var s4 := Initial.(newsletters := [b, c]);
    CollisionStep1();
    CollisionStep2();
    CollisionStep3();
    CollisionStep4();
    assert Run(Initial, reqs) == Run(s1, reqs[1..]);
    assert Run(s1, reqs[1..]) == Run(s2, reqs[2..]);
    assert Run(s2, reqs[2..]) == Run(s3, reqs[3..]);
    assert Run(s3, reqs[3..]) == Run(s4, reqs[4..]);
    assert Run(s4, reqs[4..]) == s4;
    DeleteOldestSubscription(s4, 2);
    DeleteOldestSubscription(Initial.(newsletters := [c]), 2);
  }

  /** A user registered after the cutoff counts as recent in the statistics. */
  lemma RegisterCountsAsRecent(st: Store, username: Input, email: Input, password: Input, now: int, weekAgo: int)
    requires Register(st, username, email, password, now).reply.Success()
    ensures var after := Register(st, username, email, password, now).store;
      Statistics(after, weekAgo).payload.stats.recentUsers
        == Statistics(st, weekAgo).payload.stats.recentUsers + (if now > weekAgo then 1 else 0)
  {
    var u := User(st.userIdCounter, username.text, email.text, password.text, now);
    CountAboveAppend(st.users, UserCreatedAt, weekAgo, u);
  }

  /** The user listing cannot reveal passwords: stores whose users differ
      only in passwords list the same. */
  lemma ListUsersHidesPasswords(st: Store, other: Store)
    requires |st.users| == |other.users|
    requires forall i :: 0 <= i < |st.users| ==> st.users[i].(password := other.users[i].password) == other.users[i]
    ensures ListUsers(st) == ListUsers(other)
  {
    ViewsIgnorePasswords(st.users, other.users);
  }
}
