/**
How the two drafts differ on the same input. server.js validates more
strictly: whatever it accepts, fixed-server.js accepts too, while
fixed-server.js also accepts short credentials, emails without `@`, empty
product lists and negative costs. Login behaves identically apart from
its messages.
*/
module Drafts {
  import opened Records
  import Server
  import FixedServer

  /** Registration in server.js is strictly stricter than in fixed-server.js. */
  lemma RegisterStricter(a: Server.Store, b: FixedServer.Store, username: Input, email: Input, password: Input, now: int)
    requires a.users == b.users
    requires Server.Register(a, username, email, password, now).reply.Success()
    ensures FixedServer.Register(b, username, email, password, now).reply.Success()
  {
  }

  lemma ShortCredentialsDiffer()
    ensures FixedServer.Register(FixedServer.Initial, Given("al"), Given("al@x.com"), Given("pw"), 0).reply.Success()
    ensures Server.Register(Server.Initial, Given("al"), Given("al@x.com"), Given("pw"), 0).reply
         == Reply(BadRequest, Server.UsernameTooShort, NoPayload)
  {
  }

  /** Subscription in server.js is stricter: same outcome where it accepts. */
  lemma SubscribeStricter(a: Server.Store, b: FixedServer.Store, email: Input, now: int)
    requires a.newsletters == b.newsletters
    requires Server.Subscribe(a, email, now).reply.Success()
    ensures FixedServer.Subscribe(b, email, now).reply.Success()
    ensures Server.Subscribe(a, email, now).store.newsletters == FixedServer.Subscribe(b, email, now).store.newsletters
  {
  }

  lemma EmailWithoutAtDiffers()
    ensures FixedServer.Subscribe(FixedServer.Initial, Given("nobody"), 0).store.newsletters
         == [Subscription(1, "nobody", 0)]
    ensures Server.Subscribe(Server.Initial, Given("nobody"), 0).reply
         == Reply(BadRequest, Server.InvalidEmail, NoPayload)
  {
    assert forall k :: 0 <= k < |"nobody"| ==> "nobody"[k] != '@';
  }

  /** Estimates saved by server.js are saved by fixed-server.js too. */
  lemma SaveEstimateStricter(a: Server.Store, b: FixedServer.Store, selection: Selection, totalCost: Cost, now: int)
    requires Server.SaveEstimate(a, selection, totalCost, now).reply.Success()
    ensures FixedServer.SaveEstimate(b, selection, totalCost, now).reply.Success()
  {
  }

  lemma EmptyOrNegativeEstimateDiffers()
    ensures FixedServer.SaveEstimate(FixedServer.Initial, Selection([]), Cost(-5), 0).reply
         == Reply(Ok, FixedServer.EstimateSaved, EstimatePayload(Estimate(1, [], -5, 0)))
    ensures !Server.SaveEstimate(Server.Initial, Selection([]), Cost(-5), 0).reply.Success()
    ensures !Server.SaveEstimate(Server.Initial, Selection(["oven"]), Cost(-5), 0).reply.Success()
  {
  }

  /** Over the same users, both drafts answer a login with the same status
      and the same payload; only the messages differ. */
  lemma LoginAgrees(a: Server.Store, b: FixedServer.Store, email: Input, password: Input)
    requires a.users == b.users
    ensures Server.Login(a, email, password).status == FixedServer.Login(b, email, password).status
    ensures Server.Login(a, email, password).payload == FixedServer.Login(b, email, password).payload
  {
  }

  /** Both drafts accept exactly the same contact forms. */
  lemma ContactValidationAgrees(a: Server.Store, b: FixedServer.Store,
                                name: Input, email: Input, phone: Input, subject: Input, message: Input, now: int)
    ensures Server.SubmitContact(a, name, email, phone, subject, message, now).reply.status
         == FixedServer.SubmitContact(b, name, email, phone, subject, message, now).reply.status
  {
  }
}
