/** The POST handler of api/signup.js: pure input guards, the Stripe customer
    step, then the duplicate check and the `users.set` of the new account, and the
    welcome emails whose failure never reaches the reply. Stripe, SHA-256, the
    clock and the email API are parameters. */
module Signup {
  import opened JsBase
  import opened JsText
  import opened Patterns
  import opened UserStore
  import opened Http

  const FieldsRequired := "Email and password are required"
  const InvalidEmail := "Invalid email format"
  const PasswordTooShort := "Password must be at least 8 characters"
  const AlreadyRegistered := "An account with this email already exists. Please login instead."
  const AccountCreated := "Account created successfully. Check your email for login details."

  /** The guards at lines 22-35, in order. `None` means the request gets past them. */
  function CheckInput(email: Option<string>, password: Option<string>): (r: Option<Reply>)
    ensures r.None? <==> Present(email) && Present(password) && EmailPattern(email.value) && |password.value| >= 8
    ensures !Present(email) || !Present(password) ==> r == Some(Reply(400, Failure(FieldsRequired)))
    ensures Present(email) && Present(password) && !EmailPattern(email.value) ==>
              r == Some(Reply(400, Failure(InvalidEmail)))
    ensures Present(email) && Present(password) && EmailPattern(email.value) && |password.value| < 8 ==>
              r == Some(Reply(400, Failure(PasswordTooShort)))
  {
    if !Present(email) || !Present(password) then Some(Reply(400, Failure(FieldsRequired)))
    else if !EmailPattern(email.value) then Some(Reply(400, Failure(InvalidEmail)))
    else if |password.value| < 8 then Some(Reply(400, Failure(PasswordTooShort)))
    else None
  }

  /** The Stripe step at lines 38-57: the first listed customer's id, or else the id
      of a customer created now; a thrown Stripe error carries its message. */
  datatype CustomerStep = CustomerId(id: string) | StripeThrew(message: string)

  function ResolveCustomer(list: CustomerList, create: CustomerCreate): (r: CustomerStep)
    ensures ListsCustomer(list) ==> r == CustomerId(list.ids[0])
    ensures list.Listed? && !ListsCustomer(list) ==>
              r == (if create.Created? then CustomerId(create.id) else StripeThrew(create.message))
    ensures list.ListThrew? ==> r == StripeThrew(list.message)
  {
    match list
    case ListThrew(message) => StripeThrew(message)
    case Listed(ids) =>
      if |ids| > 0 then CustomerId(ids[0])
      else if create.Created? then CustomerId(create.id)
      else StripeThrew(create.message)
  }

  /** What `sendWelcomeEmails` does. It never throws: with no key it returns at once
      (so the logging branch at lines 202-213 is never reached), and with a key the
      login email is sent first and the password email only if the first was accepted. */
  datatype WelcomeMail = Skipped | BothSent | LoginEmailFailed | PasswordEmailFailed

  function SendWelcomeEmails(apiKey: Option<string>, loginEmail: Delivery, passwordEmail: Delivery): (r: WelcomeMail)
    ensures !Present(apiKey) ==> r == Skipped
    ensures Present(apiKey) ==> (r == BothSent <==> loginEmail == Accepted && passwordEmail == Accepted)
    ensures Present(apiKey) && loginEmail != Accepted ==> r == LoginEmailFailed
    ensures Present(apiKey) && loginEmail == Accepted && passwordEmail != Accepted ==> r == PasswordEmailFailed
  {
    if !Present(apiKey) then Skipped
    else if loginEmail != Accepted then LoginEmailFailed
    else if passwordEmail != Accepted then PasswordEmailFailed
    else BothSent
  }

  /** The handler. `createdAt` is `new Date().toISOString()` at the time of the call. */
  method Handle(store: Users, email: Option<string>, password: Option<string>,
                list: CustomerList, create: CustomerCreate, sha256: string -> string, createdAt: string,
                apiKey: Option<string>, loginEmail: Delivery, passwordEmail: Delivery)
    returns (reply: Reply, mail: Option<WelcomeMail>)
    requires store.Valid()
    modifies store
    ensures store.Valid() && store.resetTokens == old(store.resetTokens)
    // Invalid input: the guard's 400, nothing stored, nothing sent.
    ensures CheckInput(email, password).Some? ==>
              reply == CheckInput(email, password).value && unchanged(store) && mail == None
    // A Stripe error (checked before the duplicate check): 500 with its message.
    ensures CheckInput(email, password).None? && ResolveCustomer(list, create).StripeThrew? ==>
              reply == Reply(500, Failure(ResolveCustomer(list, create).message)) && unchanged(store) && mail == None
    // An email that already has an account: 400, store unchanged.
    ensures CheckInput(email, password).None? && ResolveCustomer(list, create).CustomerId? &&
            old(store.Exists(email.value)) ==>
              reply == Reply(400, Failure(AlreadyRegistered)) && unchanged(store) && mail == None
    // Success: exactly one new entry, holding the hash (not the password); the reply
    // does not depend on how the welcome emails fared.
    ensures CheckInput(email, password).None? && ResolveCustomer(list, create).CustomerId? &&
            !old(store.Exists(email.value)) ==>
              var id := ResolveCustomer(list, create).id;
              && store.users == old(store.users)[email.value := Record(User(email.value, sha256(password.value), Some(id), createdAt))]
              && reply == Reply(200, SignedUp(AccountCreated, id))
              && mail == Some(SendWelcomeEmails(apiKey, loginEmail, passwordEmail))
    ensures reply.status in {200, 400, 500}
    ensures reply.status == 200 <==> mail.Some?
  {
    var rejected := CheckInput(email, password);
    if rejected.Some? {
      return rejected.value, None;
    }
    var step := ResolveCustomer(list, create);
    if step.StripeThrew? {
      return Reply(500, Failure(step.message)), None;
    }
    var customerId := step.id;
    var passwordHash := sha256(password.value);
    if store.Exists(email.value) {
      return Reply(400, Failure(AlreadyRegistered)), None;
    }
    var _ := store.Set(email.value, Record(User(email.value, passwordHash, Some(customerId), createdAt)));
    mail := Some(SendWelcomeEmails(apiKey, loginEmail, passwordEmail));
    reply := Reply(200, SignedUp(AccountCreated, customerId));
  }

  /** Signup only accepts an address with exactly one `@` and no white space. */
  lemma AcceptedEmailShape(email: Option<string>, password: Option<string>)
    requires CheckInput(email, password).None?
    ensures forall k :: 0 <= k < |email.value| ==> !IsSpace(email.value[k])
    ensures exists i :: 0 < i < |email.value| && email.value[i] == '@' &&
              forall k :: 0 <= k < |email.value| && k != i ==> email.value[k] != '@'
  {
    EmailPatternSingleAt(email.value);
  }
}
