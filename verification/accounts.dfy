/**
The user-account logic the two drafts have in common: the duplicate test
that guards registration and the lookup behind login. Each draft wraps
these with its own validation and its own response messages.
*/
module Accounts {
  import opened Lists
  import opened Records

  /** `users.find(u => u.email === email || u.username === username)`,
      used only for its truthiness. */
  function Taken(users: seq<User>, username: string, email: string): (b: bool)
    ensures b <==> exists i :: 0 <= i < |users| && (users[i].email == email || users[i].username == username)
  {
    FindIndex(users, (u: User) => u.email == email || u.username == username).Some?
  }

  /** Appending a user whose name and email are not taken keeps both
      uniqueness invariants. */
  lemma AppendUntaken(users: seq<User>, u: User)
    requires Distinct(users, UserName) && Distinct(users, UserEmail)
    requires !Taken(users, u.username, u.email)
    ensures Distinct(users + [u], UserName) && Distinct(users + [u], UserEmail)
  {
  }

  /** The ways a login request can end. */
  datatype LoginOutcome = MissingCredentials | UnknownEmail | WrongPassword | LoggedIn(user: PublicUser)

  /** `users[i]` is the user `users.find(u => u.email === email)` returns:
      the first one with that email. */
  predicate FirstWithEmail(users: seq<User>, email: string, i: int) {
    && 0 <= i < |users|
    && users[i].email == email
    && forall j :: 0 <= j < i ==> users[j].email != email
  }

  /** The email lookup lands on the first user with that email. */
  lemma LookupFindsFirst(users: seq<User>, email: string, i: int)
    requires FirstWithEmail(users, email, i)
    ensures IndexOf(users, UserEmail, email) == Some(i)
  {
    var k := IndexOf(users, UserEmail, email);
    assert k.Some?;
    assert !(k.value < i) && !(i < k.value);
  }

  /** Both fields are required; the first user with the email is looked up;
      its stored password must equal the given one. */
  function Authenticate(users: seq<User>, email: Input, password: Input): (r: LoginOutcome)
    ensures r.MissingCredentials? <==> !Present(email) || !Present(password)
    ensures r.UnknownEmail? <==>
      Present(email) && Present(password) && forall i :: 0 <= i < |users| ==> users[i].email != email.text
    ensures r.WrongPassword? ==>
      exists i :: FirstWithEmail(users, email.text, i) && users[i].password != password.text
    ensures r.LoggedIn? ==>
      exists i :: FirstWithEmail(users, email.text, i) && users[i].password == password.text
        && r.user == Public(users[i])
    ensures forall i :: Present(email) && Present(password) && FirstWithEmail(users, email.text, i) ==>
      r == (if users[i].password == password.text then LoggedIn(Public(users[i])) else WrongPassword)
  {
    if !Present(email) || !Present(password) then MissingCredentials
    else
      assert forall i :: FirstWithEmail(users, email.text, i) ==> IndexOf(users, UserEmail, email.text) == Some(i) by {
        forall i | FirstWithEmail(users, email.text, i) { LookupFindsFirst(users, email.text, i); }
      }
      match IndexOf(users, UserEmail, email.text)
      case None => UnknownEmail
      case Some(i) =>
        if users[i].password != password.text then WrongPassword
        else LoggedIn(Public(users[i]))
  }

  /** With unique emails, login succeeds exactly for a stored email and
      password pair, and then answers with that user. */
  lemma LoginExact(users: seq<User>, email: Input, password: Input)
    requires Distinct(users, UserEmail)
    requires Present(email) && Present(password)
    ensures Authenticate(users, email, password).LoggedIn? <==>
      exists i :: 0 <= i < |users| && users[i].email == email.text && users[i].password == password.text
    ensures forall i :: 0 <= i < |users| && users[i].email == email.text && users[i].password == password.text ==>
      Authenticate(users, email, password) == LoggedIn(Public(users[i]))
  {
    var k := IndexOf(users, UserEmail, email.text);
    forall i | 0 <= i < |users| && users[i].email == email.text && users[i].password == password.text
      ensures Authenticate(users, email, password) == LoggedIn(Public(users[i]))
    {
      assert k.Some?;
      assert users[k.value].email == users[i].email;
      assert k.value == i;
    }
  }
}
