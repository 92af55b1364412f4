/** The in-memory user store of api/users.js: one module-level object keyed by
    email, read by `get`, `exists` and `all` and written by `set`; plus the
    reset-token map that the password-reset handlers call on the same module.

    api/users.js as it stands defines only `get`, `set`, `exists` and `all`. The
    calls `users.setResetToken`, `users.getResetToken` and `users.deleteResetToken`
    made by api/forgot-password.js and api/reset-password.js therefore throw a
    TypeError: reset-password then answers 500 from its catch block, and
    forgot-password still answers its generic success (ResetPassword.HandleAsWritten
    and ForgotPassword.HandleAsWritten model exactly that). The token map below gives
    those three calls the contract the handlers rely on: store a record under a
    token, look a token up to get its `{email}`, delete a token. */
module UserStore {
  import opened JsBase

  /** The record api/signup.js stores for an account. */
  datatype User = User(email: string, passwordHash: string, customerId: Option<string>, createdAt: string)

  /** A value held under an email. `set` accepts anything; every caller stores a
      record (an object, hence truthy), and `Falsy` stands for the falsy values
      (`null`, `false`, `0`, `""`) that `exists` would report as absent. */
  datatype UserData = Falsy | Record(user: User)

  /** What `setResetToken(token, email, expiresAt)` records; the expiry is kept in
      milliseconds since the epoch. */
  datatype ResetToken = ResetToken(email: string, expiresAt: int)

  /** JavaScript truthiness of `users.get(email)`. */
  predicate Truthy(v: Option<UserData>)
  {
    v.Some? && v.value.Record?
  }

  class Users {
    /** The module-level `users` object. */
    var users: map<string, UserData>
    /** The reset tokens, keyed by token. */
    var resetTokens: map<string, ResetToken>
    /** Every email passed to `set` since the store was created. */
    ghost var written: set<string>

    ghost predicate Valid()
      reads this
    {
      users.Keys == written
    }

    /** A fresh store: `get` is `undefined` and `exists` is false for every email. */
    constructor ()
      ensures Valid() && written == {} && resetTokens == map[]
      ensures forall email :: Get(email) == None && !Exists(email)
    {
      users := map[];
      resetTokens := map[];
      written := {};
    }

    /** `get(email)`: the value stored under `email`, or `undefined`. */
    function Get(email: string): (r: Option<UserData>)
      reads this
      ensures r.Some? <==> email in users
      ensures r.Some? ==> r.value == users[email]
    {
      if email in users then Some(users[email]) else None
    }

    /** `exists(email)`: `!!users[email]`. */
    predicate Exists(email: string)
      reads this
      ensures Exists(email) <==> email in users && users[email].Record?
    {
      Truthy(Get(email))
    }

    /** `all()`: the whole map, whose keys are exactly the emails written so far. */
    function All(): (r: map<string, UserData>)
      requires Valid()
      reads this
      ensures r.Keys == written
      ensures forall email :: Get(email) == (if email in r then Some(r[email]) else None)
    {
      users
    }

    /** `set(email, userData)`: stores `userData` under `email`, replacing any
        earlier value, and returns what it stored. */
    method Set(email: string, data: UserData) returns (stored: UserData)
      requires Valid()
      modifies this
      ensures Valid()
      ensures stored == data && Get(email) == Some(data)
      ensures Exists(email) <==> data.Record?
      ensures forall other :: other != email ==> Get(other) == old(Get(other))
      ensures users == old(users)[email := data] && |users.Keys| <= |old(users.Keys)| + 1
      ensures written == old(written) + {email}
      ensures resetTokens == old(resetTokens)
    {
      users := users[email := data];
      written := written + {email};
      stored := users[email];
    }

    /** `setResetToken(token, email, expiresAt)`: records the token, replacing any
        earlier record under the same token. */
    method SetResetToken(token: string, email: string, expiresAt: int)
      modifies this
      ensures GetResetToken(token) == Some(ResetToken(email, expiresAt))
      ensures resetTokens == old(resetTokens)[token := ResetToken(email, expiresAt)]
      ensures users == old(users) && written == old(written)
    {
      resetTokens := resetTokens[token := ResetToken(email, expiresAt)];
    }

    /** `getResetToken(token)`: the record stored under `token`, or `undefined`. */
    function GetResetToken(token: string): (r: Option<ResetToken>)
      reads this
      ensures r.Some? <==> token in resetTokens
      ensures r.Some? ==> r.value == resetTokens[token]
    {
      if token in resetTokens then Some(resetTokens[token]) else None
    }

    /** `deleteResetToken(token)`: removes the token; a token that is not there is no error. */
    method DeleteResetToken(token: string)
      modifies this
      ensures GetResetToken(token) == None
      ensures resetTokens == old(resetTokens) - {token}
      ensures token !in old(resetTokens) ==> resetTokens == old(resetTokens)
      ensures users == old(users) && written == old(written)
    {
      resetTokens := resetTokens - {token};
    }
  }

  /** Setting the same email twice leaves one entry, holding the second value. */
  method SetTwice(store: Users, email: string, first: UserData, second: UserData)
    requires store.Valid()
    modifies store
    ensures store.Valid()
    ensures store.users == old(store.users)[email := second]
    ensures |store.users| == |old(store.users)| + (if email in old(store.users) then 0 else 1)
  {
    var _ := store.Set(email, first);
    var _ := store.Set(email, second);
  }
}
