/** The replies the account handlers send, and the outcomes of the foreign calls
    (Stripe, the Resend email API) they depend on, as plain values. */
module Http {
  import opened JsBase

  /** The JSON body of a reply. */
  datatype Body =
    | Failure(error: string)                               // { error }
    | Done(message: string)                                // { success: true, message }
    | LoggedIn(customerId: Option<string>, email: string)  // { customerId, email, success: true }
    | SignedUp(message: string, stripeCustomerId: string)  // { success: true, message, customerId }

  /** `res.status(status).json(body)`; a bare `res.json(body)` has status 200. */
  datatype Reply = Reply(status: int, body: Body)

  /** What `stripe.customers.list({ email, limit: 1 })` gave: the ids of the listed
      customers in order, or the message of the error it threw. */
  datatype CustomerList = ListThrew(message: string) | Listed(ids: seq<string>)

  /** What `stripe.customers.create({ email, ... })` gave. */
  datatype CustomerCreate = CreateThrew(message: string) | Created(id: string)

  /** What one `fetch` to the email API did: answered with `ok`, answered with an
      error status, or threw. */
  datatype Delivery = Accepted | Refused | Unreachable

  /** The listing names at least one customer. */
  predicate ListsCustomer(list: CustomerList)
  {
    list.Listed? && |list.ids| > 0
  }
}
