/** The session guard in front of the account-verification routes. Token
    signing and checking are a foreign library: `verify` stands for
    `jwt.verify` with the server's secret. */
module Session {
  import opened Outcomes

  type UserId = nat

  /** The `token` cookie of a request. */
  datatype Cookie = NoToken | Token(value: string)

  /** What checking a token yields: it is refused (bad signature, expired,
      malformed), or it decodes to a payload that may or may not carry an id. */
  datatype Decoded = Rejected | Payload(id: Option<UserId>)

  /** Either the request goes on as user `id`, or it is answered here. */
  datatype Guard = Pass(id: UserId) | Refuse(response: Response)

  const Unauthorized := Response(401, false, "Unauthorized")
  const InvalidToken := Response(401, false, "Invalid token")

  /** A request passes exactly when its cookie holds a token that checks and
      carries an id; every refusal is a 401. */
  function Authenticate(cookie: Cookie, verify: string -> Decoded): (r: Guard)
    ensures r.Pass? <==>
              cookie.Token? && cookie.value != "" && verify(cookie.value).Payload? && verify(cookie.value).id.Some?
    ensures r.Pass? ==> r.id == verify(cookie.value).id.value
    ensures r.Refuse? ==> r.response.status == 401 && !r.response.success
    ensures cookie.NoToken? || cookie == Token("") ==> r == Refuse(Unauthorized)
  {
    match cookie
    case NoToken => Refuse(Unauthorized)
    case Token(t) =>
      if t == "" then Refuse(Unauthorized)
      else match verify(t)
      case Rejected => Refuse(InvalidToken)
      case Payload(id) => if id.None? then Refuse(Unauthorized) else Pass(id.value)
  }

  /** A token minted for `id` (one that the checker decodes back to `id`)
      lets its bearer through as `id`. */
  lemma SignedTokenResolves(id: UserId, sign: UserId -> string, verify: string -> Decoded)
    requires sign(id) != "" && verify(sign(id)) == Payload(Some(id))
    ensures Authenticate(Token(sign(id)), verify) == Pass(id)
  {
  }
}
