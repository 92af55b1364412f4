/** The POST handler of api/forgot-password.js: validate the email, store a reset
    token only for a known account, mail the reset link, and answer every valid
    request with the same generic success, whatever happened inside. Stripe, the
    random bytes, the clock and the email API are parameters. */
module ForgotPassword {
  import opened JsBase
  import opened JsText
  import opened Patterns
  import opened UserStore
  import opened Http

  const EmailRequired := "Email is required"
  const InvalidEmail := "Invalid email format"
  const LinkSent := "If an account exists with that email, you will receive a password reset link."
  const DefaultOrigin := "https://edgelandings.com"
  const ResetPath := "/reset-password.html?token="
  /** `60 * 60 * 1000`: a token lives one hour. */
  const TokenLifetimeMs := 3600000

  /** The guards at lines 22-30. `None` means the request gets past them. */
  function CheckInput(email: Option<string>): (r: Option<Reply>)
    ensures r.None? <==> Present(email) && EmailPattern(email.value)
    ensures !Present(email) ==> r == Some(Reply(400, Failure(EmailRequired)))
    ensures Present(email) && !EmailPattern(email.value) ==> r == Some(Reply(400, Failure(InvalidEmail)))
  {
    if !Present(email) then Some(Reply(400, Failure(EmailRequired)))
    else if !EmailPattern(email.value) then Some(Reply(400, Failure(InvalidEmail)))
    else None
  }

  /** The reply to every request that passes the guards. */
  const GenericReply := Reply(200, Done(LinkSent))

  type byte = x: int | 0 <= x < 256

  function HexDigit(n: int): (c: char)
    requires 0 <= n < 16
  {
    "0123456789abcdef"[n]
  }

  predicate IsHexDigit(c: char)
  {
    ('0' <= c <= '9') || ('a' <= c <= 'f')
  }

  /** `Buffer.toString('hex')`: two lower-case hexadecimal digits per byte. */
  function Hex(bytes: seq<byte>): (s: string)
    ensures |s| == 2 * |bytes|
    ensures forall i :: 0 <= i < |s| ==> IsHexDigit(s[i])
  {
    if bytes == [] then [] else [HexDigit(bytes[0] / 16), HexDigit(bytes[0] % 16)] + Hex(bytes[1..])
  }

  function HexValue(c: char): int
  {
    if '0' <= c <= '9' then c as int - '0' as int
    else if 'a' <= c <= 'f' then c as int - 'a' as int + 10
    else 0
  }

  /** Reads hexadecimal text back into bytes. */
  function Unhex(s: string): seq<int>
  {
    if |s| < 2 then [] else [16 * HexValue(s[0]) + HexValue(s[1])] + Unhex(s[2..])
  }

  /** The token text determines the random bytes it was made from. */
  lemma {:induction false} UnhexHex(bytes: seq<byte>)
    ensures Unhex(Hex(bytes)) == bytes
  {
    if bytes != [] {
      var b := bytes[0];
      var s := Hex(bytes);
      assert s[2..] == Hex(bytes[1..]);
      assert HexValue(HexDigit(b / 16)) == b / 16;
      assert HexValue(HexDigit(b % 16)) == b % 16;
      UnhexHex(bytes[1..]);
    }
  }

  /** `crypto.randomBytes(32).toString('hex')`: 64 lower-case hexadecimal digits. */
  lemma ResetTokenShape(random: seq<byte>)
    requires |random| == 32
    ensures |Hex(random)| == 64
    ensures forall i :: 0 <= i < 64 ==> IsHexDigit(Hex(random)[i])
  {
  }

  /** `req.headers.origin || 'https://edgelandings.com'`. */
  function BaseUrl(origin: Option<string>): (r: string)
    ensures Present(origin) ==> r == origin.value
    ensures !Present(origin) ==> r == DefaultOrigin
  {
    if Present(origin) then origin.value else DefaultOrigin
  }

  /** The reset link: the base URL, the page, then the token as the `token` parameter. */
  function ResetUrl(origin: Option<string>, token: string): (url: string)
    ensures |url| == |BaseUrl(origin)| + |ResetPath| + |token|
    ensures url[..|BaseUrl(origin)|] == BaseUrl(origin)
    ensures url[|BaseUrl(origin)|..|url| - |token|] == ResetPath
    ensures url[|url| - |token|..] == token
  {
    var base := BaseUrl(origin);
    var url := base + ResetPath + token;
    assert url[..|base|] == base;
    assert url[|base|..|url| - |token|] == ResetPath;
    url
  }

  /** What `sendResetEmail` does: with no key it only logs and returns; with a key it
      sends one email and throws unless the email API accepted it. */
  datatype ResetMail = Logged | Sent | Threw

  function SendResetEmail(apiKey: Option<string>, delivery: Delivery): (r: ResetMail)
    ensures !Present(apiKey) ==> r == Logged
    ensures Present(apiKey) ==> (r == Sent <==> delivery == Accepted)
    ensures r != Threw <==> !Present(apiKey) || delivery == Accepted
  {
    if !Present(apiKey) then Logged
    else if delivery == Accepted then Sent
    else Threw
  }

  /** A token is stored exactly when the email is valid, the Stripe lookup (made for
      every valid email, before the branch) did not throw, and the email has a local
      account or a Stripe customer. */
  predicate StoresToken(email: Option<string>, localAccount: bool, customers: CustomerList)
  {
    CheckInput(email).None? && customers.Listed? && (localAccount || |customers.ids| > 0)
  }

  /** The handler. `random` is what `crypto.randomBytes(32)` returned and `now` is
      `Date.now()`. `mailed` is the reset link when the email API accepted the
      reset email. */
  method Handle(store: Users, email: Option<string>, origin: Option<string>, customers: CustomerList,
                random: seq<byte>, now: int, apiKey: Option<string>, delivery: Delivery)
    returns (reply: Reply, mailed: Option<string>)
    requires |random| == 32
    requires store.Valid()
    modifies store
    ensures store.Valid()
    ensures store.users == old(store.users) && store.written == old(store.written)
    // The reply depends on the email's validity alone.
    ensures reply == if CheckInput(email).Some? then CheckInput(email).value else GenericReply
    ensures StoresToken(email, old(email.Some? && store.Exists(email.value)), customers) ==>
              store.resetTokens == old(store.resetTokens)[Hex(random) := ResetToken(email.value, now + TokenLifetimeMs)]
    ensures !StoresToken(email, old(email.Some? && store.Exists(email.value)), customers) ==>
              store.resetTokens == old(store.resetTokens)
    ensures mailed.Some? <==>
              StoresToken(email, old(email.Some? && store.Exists(email.value)), customers) && SendResetEmail(apiKey, delivery) == Sent
    ensures mailed.Some? ==> mailed.value == ResetUrl(origin, Hex(random))
  {
    mailed := None;
    var rejected := CheckInput(email);
    if rejected.Some? {
      return rejected.value, None;
    }
    var userExists := store.Exists(email.value);
    // `await stripe.customers.list(...)`: a thrown error skips to the catch block,
    // which answers with the same generic success.
    if customers.ListThrew? {
      return GenericReply, None;
    }
    var customerExists := |customers.ids| > 0;
    if userExists || customerExists {
      var resetToken := Hex(random);
      var expiresAt := now + TokenLifetimeMs;
      store.SetResetToken(resetToken, email.value, expiresAt);
      var resetUrl := ResetUrl(origin, resetToken);
      var sent := SendResetEmail(apiKey, delivery);
      if sent == Sent {
        mailed := Some(resetUrl);
      }
    }
    reply := GenericReply;
  }

  /** The handler as api/users.js stands: the store has no `setResetToken`, so exactly
      when `Handle` would store a token the call at line 47 throws, before the link is
      built or mailed, and the catch block answers with the generic success. The
      result pairs the reply with whether that TypeError was thrown; no token is ever
      stored and no reset email ever goes out. */
  function HandleAsWritten(email: Option<string>, localAccount: bool, customers: CustomerList): (r: (Reply, bool))
    ensures r.0 == if CheckInput(email).Some? then CheckInput(email).value else GenericReply
    ensures r.1 <==> StoresToken(email, localAccount, customers)
  {
    if CheckInput(email).Some? then (CheckInput(email).value, false)
    else if customers.ListThrew? then (GenericReply, false)
    else if localAccount || |customers.ids| > 0 then (GenericReply, true)
    else (GenericReply, false)
  }
}
