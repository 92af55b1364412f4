/** The POST handler of api/reset-password.js: an ordered chain of guards, then
    the replacement of the account's password hash and the deletion of the token.
    SHA-256 is the parameter `sha256`; the CORS, OPTIONS and 405 preamble is not modelled. */
module ResetPassword {
  import opened JsBase
  import opened UserStore
  import opened Http

  const TokenAndPasswordRequired := "Token and password are required"
  const PasswordTooShort := "Password must be at least 8 characters"
  const InvalidToken := "Invalid or expired reset token. Please request a new password reset link."
  const AccountNotFound := "User account not found"
  const ResetDone := "Password reset successfully. You can now login with your new password."
  /** What V8 throws for `users.getResetToken(token)` when the store does not define it. */
  const GetResetTokenMissing := "users.getResetToken is not a function"

  /** The two guards that need no store: both fields present, then a password of at
      least 8 characters. `None` means the request gets past them. */
  function CheckInput(token: Option<string>, password: Option<string>): (r: Option<Reply>)
    ensures r.None? <==> Present(token) && Present(password) && |password.value| >= 8
    ensures !Present(token) || !Present(password) ==> r == Some(Reply(400, Failure(TokenAndPasswordRequired)))
    ensures Present(token) && Present(password) && |password.value| < 8 ==>
              r == Some(Reply(400, Failure(PasswordTooShort)))
  {
    if !Present(token) || !Present(password) then Some(Reply(400, Failure(TokenAndPasswordRequired)))
    else if |password.value| < 8 then Some(Reply(400, Failure(PasswordTooShort)))
    else None
  }

  /** The handler, with the store's token calls behaving as the handler expects. */
  method Handle(store: Users, token: Option<string>, password: Option<string>, sha256: string -> string)
    returns (reply: Reply)
    requires store.Valid()
    modifies store
    ensures store.Valid()
    // The input guards come first and touch nothing.
    ensures CheckInput(token, password).Some? ==>
              reply == CheckInput(token, password).value && unchanged(store)
    // An unknown token: 400, nothing changes.
    ensures CheckInput(token, password).None? && old(store.GetResetToken(token.value)).None? ==>
              reply == Reply(400, Failure(InvalidToken)) && unchanged(store)
    // A token whose email has no account: 404, nothing changes.
    ensures CheckInput(token, password).None? && old(store.GetResetToken(token.value)).Some? &&
            !old(store.Exists(store.GetResetToken(token.value).value.email)) ==>
              reply == Reply(404, Failure(AccountNotFound)) && unchanged(store)
    // Success: only that account's hash changes, and the token is consumed.
    ensures CheckInput(token, password).None? && old(store.GetResetToken(token.value)).Some? &&
            old(store.Exists(store.GetResetToken(token.value).value.email)) ==>
              var email := old(store.GetResetToken(token.value)).value.email;
              var user := old(store.users[email]).user;
              && reply == Reply(200, Done(ResetDone))
              && store.users == old(store.users)[email := Record(user.(passwordHash := sha256(password.value)))]
              && store.resetTokens == old(store.resetTokens) - {token.value}
              && store.written == old(store.written)
    ensures reply.status == 200 ==> store.GetResetToken(token.value) == None
    ensures reply.status in {200, 400, 404}
  {
    var rejected := CheckInput(token, password);
    if rejected.Some? {
      return rejected.value;
    }
    var tokenData := store.GetResetToken(token.value);
    if tokenData.None? {
      return Reply(400, Failure(InvalidToken));
    }
    var email := tokenData.value.email;
    if !store.Exists(email) {
      return Reply(404, Failure(AccountNotFound));
    }
    var passwordHash := sha256(password.value);
    // `user.passwordHash = passwordHash` on the fetched object, then `users.set(email, user)`.
    var user := store.Get(email).value.user;
    var updated := user.(passwordHash := passwordHash);
    var _ := store.Set(email, Record(updated));
    store.DeleteResetToken(token.value);
    reply := Reply(200, Done(ResetDone));
  }

  /** A token works once: after a successful reset, a second request with the same
      token and an acceptable password fails at the token lookup. */
  method ResetTwice(store: Users, token: string, first: string, second: string, sha256: string -> string)
    returns (firstReply: Reply, secondReply: Reply)
    requires store.Valid()
    modifies store
    ensures firstReply.status == 200 && |second| >= 8 ==> secondReply == Reply(400, Failure(InvalidToken))
  {
    firstReply := Handle(store, Some(token), Some(first), sha256);
    secondReply := Handle(store, Some(token), Some(second), sha256);
  }

  /** The handler as api/users.js stands: the store has no `getResetToken`, so every
      request that passes the input guards throws and ends in the 500 branch; no
      password is ever reset. */
  function HandleAsWritten(token: Option<string>, password: Option<string>): (r: Reply)
    ensures CheckInput(token, password).Some? ==> r == CheckInput(token, password).value
    ensures CheckInput(token, password).None? ==> r == Reply(500, Failure(GetResetTokenMissing))
    ensures r.status != 200
  {
    var rejected := CheckInput(token, password);
    if rejected.Some? then rejected.value else Reply(500, Failure(GetResetTokenMissing))
  }
}
