/** The administrator's password check and the bearer-prefix test every protected endpoint applies. */
module Auth {
  import opened Common

  const TokenPrefix: string := "admin_"
  const BearerPrefix: string := "Bearer admin_"
  const UnauthorizedMessage: string := "Unauthorized"
  const InvalidPasswordMessage: string := "Invalid password"

  /** `auth && auth.startsWith('Bearer admin_')`: an absent or empty header fails. */
  predicate Authorized(auth: Option<string>) {
    auth.Some? && BearerPrefix <= auth.value
  }

  function DigitChar(d: nat): char
    requires d < 10
  {
    "0123456789"[d]
  }

  /** The decimal spelling JavaScript gives a non-negative integer. */
  function Decimal(n: nat): string
    decreases n
  {
    if n < 10 then [DigitChar(n)] else Decimal(n / 10) + [DigitChar(n % 10)]
  }

  /** `'admin_' + Date.now()`, with the clock reading passed in. */
  function IssueToken(now: nat): string {
    TokenPrefix + Decimal(now)
  }

  /**
    The login handler over the rows of the settings table: the first row's stored
    password must equal the one given (a missing password never does). The token it
    issues, sent back as `Bearer <token>`, passes every protected endpoint.
   */
  function Login(settings: seq<string>, password: Option<string>, now: nat): (r: Reply<string>)
    ensures r.Ok? <==> |settings| > 0 && password == Some(settings[0])
    ensures r.Fail? ==> r == Fail(Unauthorized, InvalidPasswordMessage)
    ensures r.Ok? ==> Authorized(Some("Bearer " + r.body))
  {
    if |settings| == 0 || password != Some(settings[0]) then Fail(Unauthorized, InvalidPasswordMessage)
    else
      var token := IssueToken(now);
      assert "Bearer " + token == BearerPrefix + Decimal(now);
      Ok(token)
  }
}
