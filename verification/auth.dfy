/** The `auth(role)` middleware (middleware/auth.js): the decision it takes on
    the `token` cookie before a protected route runs. */
module Auth {
  import opened Common

  /** The claims a verified token carries: the account id and its role.  A
      token signed without a role has role "" (JavaScript `undefined`, which is falsy). */
  datatype Principal = Principal(id: Id, role: string)

  /** `next()` with `req.user` set, or the status and message sent back. */
  datatype Decision = Allow(user: Principal) | Deny(code: int, message: string)

  /** The gate.  `required` is the role the route asks for ("" when none);
      `token` is the cookie ("" when absent); `verify` stands for
      `jwt.verify` with the server's secret, giving the claims of a token it
      accepts and nothing for one it rejects (bad signature, expired, malformed). */
  function Gate(required: string, token: string, verify: string -> Option<Principal>): (d: Decision)
    ensures token == "" ==> d == Deny(401, "Access Denied")
    ensures token != "" && verify(token).None? ==> d == Deny(400, "Invalid Token")
    ensures d == Deny(403, "Forbidden")
        <==> token != "" && verify(token).Some? && verify(token).value.role != "" && required != ""
             && verify(token).value.role != required
    ensures d.Allow? <==> token != "" && verify(token).Some?
                          && (verify(token).value.role == "" || required == "" || verify(token).value.role == required)
    ensures d.Allow? ==> d.user == verify(token).value
  {
    if token == "" then Deny(401, "Access Denied")
    else match verify(token)
      case None => Deny(400, "Invalid Token")
      case Some(decoded) =>
        if decoded.role != "" && required != "" && decoded.role != required then Deny(403, "Forbidden")
        else Allow(decoded)
  }

  /** Every denial is one of the three the middleware sends. */
  lemma GateDenials(required: string, token: string, verify: string -> Option<Principal>)
    ensures var d := Gate(required, token, verify);
      d.Deny? ==> d == Deny(401, "Access Denied") || d == Deny(400, "Invalid Token") || d == Deny(403, "Forbidden")
  {
  }

  /** A route reached through `auth(role)` runs for a principal of that role or
      for one whose token carries no role at all: the role check is skipped
      when the decoded role is falsy. */
  lemma AllowedPrincipalHasRoleOrNone(required: string, token: string, verify: string -> Option<Principal>)
    requires required != ""
    requires Gate(required, token, verify).Allow?
    ensures Gate(required, token, verify).user.role in {required, ""}
  {
  }

  /** With no required role every verifiable token passes, and a roleless token
      passes whatever role is required. */
  lemma PermissiveCases(required: string, token: string, verify: string -> Option<Principal>)
    requires token != "" && verify(token).Some?
    ensures Gate("", token, verify) == Allow(verify(token).value)
    ensures verify(token).value.role == "" ==> Gate(required, token, verify) == Allow(verify(token).value)
  {
  }
}
