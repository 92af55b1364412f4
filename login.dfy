/** The POST handler of api/login.js. It only reads the store (one `users.get`),
    so it is a function of the store's state. `stripe` is `None` when the module
    has no Stripe client (no key, or the client failed to load) and otherwise the
    outcome of the one `customers.list` call a request makes: for an unknown email
    the lookup at lines 47-50, for a known email without a customer id the one at
    lines 80-83 (no request makes both). SHA-256 is the parameter `sha256`. */
module Login {
  import opened JsBase
  import opened UserStore
  import opened Http

  const EmailRequired := "Email is required"
  const PasswordRequired := "Password is required"
  const NoAccount := "No account found with this email. Please sign up first."
  const NoPasswordSet := "Account found but no password set. Please sign up first to create a password."
  const InvalidCredentials := "Invalid email or password"

  /** JavaScript truthiness of a customer id. */
  predicate HasCustomerId(id: Option<string>)
  {
    Present(id)
  }

  /** Stripe is configured and its lookup lists a customer. */
  predicate StripeListsCustomer(stripe: Option<CustomerList>)
  {
    stripe.Some? && ListsCustomer(stripe.value)
  }

  function Handle(store: Users, email: Option<string>, password: Option<string>,
                  stripe: Option<CustomerList>, sha256: string -> string): (r: Reply)
    reads store
    // The email is checked before the password.
    ensures !Present(email) ==> r == Reply(400, Failure(EmailRequired))
    ensures Present(email) && !Present(password) ==> r == Reply(400, Failure(PasswordRequired))
    // No local account: 401 only when Stripe lists a customer, 404 otherwise
    // (no client, a Stripe error, or an empty listing).
    ensures Present(email) && Present(password) && !Truthy(store.Get(email.value)) ==>
              r == if StripeListsCustomer(stripe) then Reply(401, Failure(NoPasswordSet))
                   else Reply(404, Failure(NoAccount))
    // A local account whose stored hash differs from the hash of the password: 401.
    ensures Present(email) && Present(password) && Truthy(store.Get(email.value)) &&
            store.Get(email.value).value.user.passwordHash != sha256(password.value) ==>
              r == Reply(401, Failure(InvalidCredentials))
    // A matching hash: success, with the account's own customer id when it has one,
    // else the first customer Stripe lists, else the account's (falsy) value.
    ensures Present(email) && Present(password) && Truthy(store.Get(email.value)) &&
            store.Get(email.value).value.user.passwordHash == sha256(password.value) ==>
              var own := store.Get(email.value).value.user.customerId;
              && r.status == 200 && r.body.LoggedIn? && r.body.email == email.value
              && (HasCustomerId(own) ==> r.body.customerId == own)
              && (!HasCustomerId(own) && StripeListsCustomer(stripe) ==>
                    r.body.customerId == Some(stripe.value.ids[0]))
              && (!HasCustomerId(own) && !StripeListsCustomer(stripe) ==> r.body.customerId == own)
    ensures r.status in {200, 400, 401, 404}
  {
    if !Present(email) then Reply(400, Failure(EmailRequired))
    else if !Present(password) then Reply(400, Failure(PasswordRequired))
    else
      var user := store.Get(email.value);
      if !Truthy(user) then
        if StripeListsCustomer(stripe) then Reply(401, Failure(NoPasswordSet))
        else Reply(404, Failure(NoAccount))
      else if user.value.user.passwordHash != sha256(password.value) then
        Reply(401, Failure(InvalidCredentials))
      else
        var own := user.value.user.customerId;
        var customerId :=
          if !HasCustomerId(own) && StripeListsCustomer(stripe) then Some(stripe.value.ids[0]) else own;
        Reply(200, LoggedIn(customerId, email.value))
  }

  /** Login depends on the store only through `get(email)`: two stores that agree
      on that one entry give the same reply. */
  lemma DependsOnlyOnGet(s1: Users, s2: Users, email: Option<string>, password: Option<string>,
                         stripe: Option<CustomerList>, sha256: string -> string)
    requires email.Some? ==> s1.Get(email.value) == s2.Get(email.value)
    ensures Handle(s1, email, password, stripe, sha256) == Handle(s2, email, password, stripe, sha256)
  {
  }
}
