# Smart Home Hub / KitchenIQ Hub backend — a Dafny model

The repository holds two drafts of one small Express backend, `server.js`
(KitchenIQ Hub) and `fixed-server.js` (Smart Home Hub). Under the HTTP
wiring, every handler does the same thing: validate the request body, maybe
append one record to (or splice one record out of) one of four in-memory
arrays — users, contacts, newsletter subscriptions, cost estimates — and
answer with a status (200, 400 or 404) and a `{success, message, ...}` body.

This project models each draft as an immutable `Store` (the four arrays plus
the id counters) and each route as a pure function from a store and a request
to a reply and a new store. Read-only routes (login, listings, statistics,
health) return only a reply, so they cannot change the store.

Files:

- `lists.dfy` (`Lists`): the array operations the handlers use (`find`,
  `findIndex`, `splice(i, 1)`, `filter(...).length`). It also holds the
  predicates the invariants are built from (unique keys, increasing ids,
  ids below a counter, ids equal to position plus one) and facts about them.
- `records.dfy` (`Records`): request fields with JavaScript truthiness,
  the four record kinds, the password-free user views and the response envelope.
- `accounts.dfy` (`Accounts`): the duplicate-user test and the login lookup,
  which both drafts share.
- `server.dfy` (`Server`) and `server_properties.dfy` (`ServerProperties`):
  `server.js` and what it guarantees.
- `fixed_server.dfy` (`FixedServer`) and `fixed_server_properties.dfy`
  (`FixedServerProperties`): `fixed-server.js` and what it guarantees.
- `drafts.dfy` (`Drafts`): the two drafts compared on the same inputs.

JavaScript "missing" inputs are explicit. A string field is `Absent` or
`Given(text)`, and it counts as present only when the text is non-empty.
`totalCost` is `NoCost` or `Cost(n)`, and `0` counts as missing.
`selectedProducts` is `NoSelection` or `Selection(items)`, and an empty
array counts as present. A path id is `Option<int>`: `None` is a `parseInt`
result of NaN, which matches no record. Timestamps are integers supplied with
each request. The statistics route is given the instant "now minus seven
days" as `weekAgo`.

Three behaviours of the code are worth stating up front:

- In `server.js`, user, contact and estimate ids come from per-kind
  counters, so an id is never issued twice
  (`ServerProperties.IdsNeverReused`). Newsletter ids in `server.js` are
  `length + 1`, not a counter. After a delete, a new subscriber can get the
  id of a surviving one, and then deleting that id succeeds twice
  (`ServerProperties.NewsletterIdsCollide`). In `fixed-server.js`, contact,
  newsletter and estimate ids are also `length + 1`. There they stay unique
  only because that draft has no delete routes
  (`FixedServerProperties.IdsIncrease`).
- The statistics route counts a user as recent only when it was created
  strictly after the cutoff seven days back; a user created exactly at the
  cutoff is not counted. `Server.Statistics` does the same.
- Only `server.js` requires a non-empty product list and a positive cost
  for an estimate. `fixed-server.js` saves an empty product list and a
  negative cost (`Drafts.EmptyOrNegativeEstimateDiffers`).

## Model

| member | source | states |
|---|---|---|
| Lists.FindIndex | server.js:452 | `findIndex`: the result is the first position whose element satisfies the test, and "not found" exactly when no element does |
| Lists.IndexOf | server.js:158 | `find(x => x.field === k)`: the first position holding key `k`, and "not found" exactly when no element holds it |
| Lists.RemoveAt | server.js:461 | `splice(i, 1)` removes exactly the element at `i`: the result is one shorter, keeps the order of the rest, and the multisets differ by that one element |
| Lists.DeleteById | server.js:451-461 | delete-by-id finds nothing exactly when the parsed id is NaN or no record has it; otherwise it removes the first record with that id and nothing else |
| Lists.DeleteByIdOnce | server.js:506-515 | when ids are unique, a second delete of the same id finds nothing |
| Lists.Occurrences | server.js:262-276 | reference count behind "each email is stored at most once": the lookup at line 262 refuses a second subscription, and `Occurrences` counts the records holding a key, zero exactly when none holds it |
| Lists.DistinctIffAtMostOnce | server.js:262-276 | a key is unique across records if and only if every value occurs at most once |
| Lists.CountAbove | server.js:428-432 | the recent-user count never exceeds the total; it equals the total exactly when every user is after the cutoff, and is zero exactly when none is |
| Lists.CountAboveAppend | server.js:428-432 | appending a record raises the count by one exactly when the record is after the cutoff |
| Records.Views | server.js:384-389 | the user listing has one entry per user, in order, with the same id, username, email and creation time |
| Records.ViewsIgnorePasswords | server.js:383-389 | the listing does not depend on passwords: user sequences that differ only in passwords list identically |
| Accounts.Taken | server.js:104 | the duplicate test holds exactly when some user has the same email or the same username |
| Accounts.AppendUntaken | server.js:104-121 | appending a user whose name and email are not taken keeps usernames unique and emails unique |
| Accounts.LookupFindsFirst | server.js:158 | `users.find(u => u.email === email)` returns the first user with that email: whenever user `i` is the first with the email, the lookup lands exactly on `i` |
| Accounts.Authenticate | server.js:150-172 | missing credentials exactly when a field is falsy; unknown email exactly when no user has it; otherwise the outcome is decided by the first user with that email alone: success with that user's public fields when its password matches, wrong password when it differs |
| Accounts.LoginExact | server.js:157-184 | with unique emails, login succeeds if and only if some user has that email and password, and then answers with that user |
| Server.Register | server.js:82-132 | 400 exactly when a field is missing, the username is shorter than 3, the password shorter than 6, or the email or username is taken, each branch with its own message ("All fields are required", "Username must be at least 3 characters", "Password must be at least 6 characters", "User already exists with this email or username") checked in that order and no payload; a 400 leaves the store unchanged; success answers "Registration successful! You can now login.", appends one user with the current counter as id, increments the counter, changes nothing else and echoes id, username and email |
| Server.Login | server.js:150-184 | 400 "Email and password are required" for a missing field; 400 "User not found" when no user has the email; otherwise the first user with the email decides: 200 "Login successful!" echoing that user's public fields when its password matches, 400 "Invalid password" when it differs |
| Server.SubmitContact | server.js:206-228 | 400 "Name, email, subject and message are required" with no payload exactly when one of those is missing, with the store unchanged; otherwise 200 with the thank-you message and no payload, one contact appended with the counter id and phone defaulting to "Not provided", and the counter incremented |
| Server.Subscribe | server.js:246-281 | never any payload; 400 "Email is required" for a missing email and 400 "Please enter a valid email address" for one without `@`; an already-stored email answers 200 "You're already subscribed…" and stores nothing; a new email answers 200 "Thank you for subscribing…" and is appended with id `length + 1` |
| Server.SaveEstimate | server.js:306-333 | 400 "Please select at least one product" when products are absent or empty, else 400 "Invalid total cost" when the cost is missing or not positive, both with no payload and nothing stored; success answers "Cost estimate saved successfully!", appends one estimate with the counter id, increments the counter and echoes the estimate |
| Server.ListContacts | server.js:349-354 | 200 with the stored contacts, oldest first |
| Server.ListNewsletters | server.js:365-370 | 200 with the stored subscriptions, oldest first |
| Server.ListUsers | server.js:381-394 | 200 with one password-free view per stored user, in order |
| Server.ListEstimates | server.js:405-410 | 200 with the stored estimates, oldest first |
| Server.Statistics | server.js:421-437 | totals equal the array lengths; recent users never exceed the total, equal it exactly when every user is after the cutoff, and are zero exactly when none is |
| Server.Health | server.js:60-72 | 200 with the time and the current length of each array |
| Server.DeleteContact | server.js:449-465 | 404 "Contact not found" exactly when no contact has the parsed id, with the store unchanged; otherwise 200 "Contact deleted successfully" and the first contact with that id is spliced out, nothing else changing; no payload either way |
| Server.DeleteNewsletter | server.js:476-492 | 404 "Subscriber not found" exactly when no subscription has the parsed id, with the store unchanged; otherwise 200 "Subscriber deleted successfully" and the first subscription with that id is spliced out, nothing else changing; no payload either way |
| Server.DeleteUser | server.js:503-519 | 404 "User not found" exactly when no user has the parsed id, with the store unchanged; otherwise 200 "User deleted successfully" and the first user with that id is spliced out, the counter left as it was; no payload either way |
| Server.DeleteEstimate | server.js:530-546 | 404 "Estimate not found" exactly when no estimate has the parsed id, with the store unchanged; otherwise 200 "Estimate deleted successfully" and the first estimate with that id is spliced out, nothing else changing; no payload either way |
| Server.Handle | server.js:60-554 | routing: login, listings, statistics and health leave the store unchanged |
| ServerProperties.InitialValid | server.js:32-38 | the empty store with every counter at 1 satisfies the invariant |
| ServerProperties.RegisterKeepsValid | server.js:89-121 | registration keeps usernames and emails unique, keeps every stored user at least 3/6 characters long, and keeps user ids increasing and below the counter |
| ServerProperties.SubmitContactKeepsValid | server.js:213-223 | contact ids stay increasing and below their counter |
| ServerProperties.SubscribeKeepsValid | server.js:254-276 | newsletter emails stay unique and all contain `@` |
| ServerProperties.SaveEstimateKeepsValid | server.js:306-327 | estimate ids stay increasing, and every stored estimate has a product and a positive cost |
| ServerProperties.DeleteContactKeepsValid | server.js:461 | removing a contact keeps the invariant |
| ServerProperties.DeleteNewsletterKeepsValid | server.js:488 | removing a subscription keeps the invariant |
| ServerProperties.DeleteUserKeepsValid | server.js:515 | removing a user keeps uniqueness, and leaves the counter above every remaining id |
| ServerProperties.DeleteEstimateKeepsValid | server.js:542 | removing an estimate keeps the invariant |
| ServerProperties.HandleKeepsValid | server.js:75-554 | every route keeps the invariant |
| ServerProperties.RunKeepsValid | server.js:32-38 | every store reached by any sequence of requests satisfies the invariant |
| ServerProperties.HandleIssuesFreshIds | server.js:114 | one request never lowers a counter, and any user, contact or estimate it adds has an id at or above the counter |
| ServerProperties.IdsNeverReused | server.js:113-121 | after any sequence of requests, the counters have not decreased, and every user, contact or estimate was either present at the start or has an id at or above the starting counter, so it never reuses an id issued earlier, even a deleted one |
| ServerProperties.LoginSucceedsIff | server.js:150-184 | in a reachable store, login succeeds if and only if both fields are present and some user has that email and password |
| ServerProperties.RegisterThenLogin | server.js:113-184 | after a successful registration, login with the same email and password returns 200 with exactly the id, username and email that registration returned |
| ServerProperties.RegisterTwiceFails | server.js:104-110 | a second registration with the same email is 400, whatever username and password it uses |
| ServerProperties.DeleteUserIsFinal | server.js:503-519 | deleting a user removes one record; a second delete of that id is 404, and the listing no longer shows it |
| ServerProperties.DeleteContactIsFinal | server.js:449-465 | deleting a contact removes one record; a second delete of that id is 404, and the listing no longer shows it |
| ServerProperties.DeleteEstimateIsFinal | server.js:530-546 | deleting an estimate removes one record; a second delete of that id is 404, and the listing no longer shows it |
| ServerProperties.NewsletterEmailsAtMostOnce | server.js:262-268 | in a reachable store, each email has at most one subscription |
| ServerProperties.SubscribeNew | server.js:270-276 | a new email containing `@` is stored with id `length + 1` |
| ServerProperties.DeleteOldestSubscription | server.js:479-488 | deleting the id of the oldest subscription succeeds and removes that subscription |
| ServerProperties.NewsletterIdsCollide | server.js:271 | subscribing a and b, deleting id 1 and subscribing c leaves two subscriptions with id 2; deleting id 2 then succeeds twice |
| ServerProperties.RegisterCountsAsRecent | server.js:428-432 | a successful registration raises the recent-user count by one exactly when it happens after the cutoff |
| ServerProperties.ListUsersHidesPasswords | server.js:384-389 | stores whose users differ only in passwords give identical user listings |
| FixedServer.Register | fixed-server.js:58-95 | 400 "All fields are required" for a missing field, else 400 "User already exists…" when the email or username is taken, with no length checks and no payload; a 400 leaves the store unchanged; success answers "User registered successfully!", appends one user with the counter id, increments the counter and echoes id, username and email |
| FixedServer.Login | fixed-server.js:112-146 | 400 for a missing field and for an unknown email; otherwise the first user with the email decides: 200 echoing that user's public fields when its password matches, 400 "Invalid password" when it differs |
| FixedServer.SubmitContact | fixed-server.js:163-185 | 400 "Name, email, subject and message are required" with no payload exactly when one of those is missing; otherwise 200 "Your message has been received!…" with no payload and one contact appended with id `length + 1` and phone defaulting to "" |
| FixedServer.Subscribe | fixed-server.js:202-229 | never any payload; 400 "Email is required" exactly when the email is missing (there is no `@` check); an already-stored email answers 200 "You're already subscribed…" and stores nothing; a new email answers 200 "Thank you for subscribing…" and is appended with id `length + 1` |
| FixedServer.SaveEstimate | fixed-server.js:246-266 | 400 "Products and total cost are required" with no payload exactly when the products are absent or the cost is falsy; otherwise 200 "Cost estimate saved successfully!" with one estimate of id `length + 1` appended and echoed |
| FixedServer.ListContacts | fixed-server.js:277-279 | 200 with the stored contacts, oldest first |
| FixedServer.ListNewsletters | fixed-server.js:281-283 | 200 with the stored subscriptions, oldest first |
| FixedServer.ListUsers | fixed-server.js:285-294 | 200 with one password-free view per stored user, in order |
| FixedServer.Handle | fixed-server.js:52-294 | routing: login and the listings leave the store unchanged |
| FixedServerProperties.InitialValid | fixed-server.js:30-34 | the empty store with the counter at 1 satisfies the invariant |
| FixedServerProperties.RegisterKeepsValid | fixed-server.js:66-83 | registration keeps usernames and emails unique, and keeps user ids equal to position plus one, with the counter one past the last |
| FixedServerProperties.SubmitContactKeepsValid | fixed-server.js:170-180 | the contact at position i keeps id i + 1 |
| FixedServerProperties.SubscribeKeepsValid | fixed-server.js:209-224 | newsletter emails stay unique, and the subscription at position i keeps id i + 1 |
| FixedServerProperties.SaveEstimateKeepsValid | fixed-server.js:253-260 | the estimate at position i keeps id i + 1 |
| FixedServerProperties.HandleKeepsValid | fixed-server.js:52-294 | every route keeps the invariant |
| FixedServerProperties.RunKeepsValid | fixed-server.js:30-34 | every store reached by any sequence of requests satisfies the invariant |
| FixedServerProperties.IdsIncrease | fixed-server.js:75-83 | in a reachable store, ids strictly increase in all four arrays, and the user counter is above every user id |
| FixedServerProperties.HandleAppends | fixed-server.js:83 | one request only appends: each array before it is a prefix of the array after it |
| FixedServerProperties.AppendOnly | fixed-server.js:30-34 | after any sequence of requests, each starting array is a prefix of the final one, and the counter has not decreased |
| FixedServerProperties.LoginSucceedsIff | fixed-server.js:112-146 | in a reachable store, login succeeds if and only if both fields are present and some user has that email and password |
| FixedServerProperties.RegisterThenLogin | fixed-server.js:75-146 | after a successful registration, login with the same email and password returns 200 with the id, username and email that registration returned |
| FixedServerProperties.NewsletterEmailsAtMostOnce | fixed-server.js:209-216 | in a reachable store, each email has at most one subscription |
| FixedServerProperties.ListUsersHidesPasswords | fixed-server.js:287-292 | stores whose users differ only in passwords give identical user listings |
| Drafts.RegisterStricter | server.js:82-110 | over the same users, every registration `server.js` accepts is accepted by `fixed-server.js` |
| Drafts.ShortCredentialsDiffer | fixed-server.js:58-72 | a 2-character username with a 2-character password registers in `fixed-server.js` and is refused by `server.js` for the username length |
| Drafts.SubscribeStricter | server.js:246-276 | over the same subscriptions, every subscription `server.js` accepts is accepted by `fixed-server.js` with the same resulting array |
| Drafts.EmailWithoutAtDiffers | server.js:254-259 | an email without `@` is stored by `fixed-server.js` and refused by `server.js` |
| Drafts.SaveEstimateStricter | server.js:306-318 | every estimate `server.js` saves is saved by `fixed-server.js` |
| Drafts.EmptyOrNegativeEstimateDiffers | fixed-server.js:246-251 | `fixed-server.js` saves an empty product list with cost -5; `server.js` refuses it, and refuses a negative cost even with a product |
| Drafts.LoginAgrees | fixed-server.js:112-146 | over the same users, both drafts answer every login with the same status and payload |
| Drafts.ContactValidationAgrees | fixed-server.js:163-168 | both drafts accept and refuse exactly the same contact forms |

## Left out

- Express setup is not modelled: the CORS headers, the `OPTIONS` short-circuit, JSON and urlencoded body parsing, and `app.listen`. They are framework plumbing.
- Static file serving, the three `sendFile` HTML routes and the `fs.existsSync` health route of `fixed-server.js` are not modelled. They are file-system I/O.
- `console.log` and `console.error` are not modelled, and neither are the `try`/`catch` branches that answer 500. They are logging, and exceptions that a typed model cannot raise.
- Real dates are not modelled. `createdAt` and `subscribedAt` are integers supplied with the request. The statistics route receives "now minus seven days" as `weekAgo`, so the calendar arithmetic of `setDate` is not modelled. The source builds a fresh `Date` for every user it filters; the model uses one cutoff for the whole count.
- JavaScript number semantics for `totalCost` are not modelled: fractions, NaN, and strings compared with `<=`. It is an integer, because only "falsy" and "`> 0`" matter. Ids and counters are unbounded integers, so precision loss above 2^53 is not modelled.
- Request fields are strings or absent. Non-string JSON values (numbers, objects, arrays) in `username`, `email` and the other string fields are not modelled.
- `selectedProducts` is modelled as an array of product names or absent. In `server.js` a truthy non-array value (an object, a number, a non-empty string) passes both checks at server.js:306 and is stored; the model cannot express it. The invariant that every stored estimate has at least one product (`Server.Valid`, `ServerProperties.SaveEstimateKeepsValid`) holds only under this array-or-absent input model.
- String lengths are counted in Unicode characters. JavaScript's `.length` counts UTF-16 code units, so the two differ for characters outside the Basic Multilingual Plane.
- `parseInt` itself is not modelled. The path id arrives already parsed as `Option<int>`, with `None` for NaN.
- Responses without a `message` field (the listings and statistics) carry the empty string as their message.
- Server.Statistics: the contract bounds `recentUsers` and pins its two extremes. It does not state the exact count as a cardinality. How the count changes is stated by `ServerProperties.RegisterCountsAsRecent` instead.
