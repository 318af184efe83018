/** The two request filters: `verifyToken`, which authenticates the request
    from its bearer token alone, and `verifyAdmin`, which admits only the
    admin role. Each either short-circuits with an error reply or passes the
    principal on to the next stage. */
module Middleware {
  import opened Outcomes
  import opened Crypto
  import Headers
  import Schema

  const MissingToken := "Token tidak ditemukan"
  const BadToken := "Token tidak valid atau sudah kadaluarsa"
  const AdminOnly := "Akses ditolak. Hanya admin yang dapat mengakses."

  /** `verifyToken`: no token in the header is 403; a token that does not
      decode or has expired is 401; otherwise the decoded payload becomes the
      principal as it is. The user store is not consulted. */
  function VerifyToken(codec: TokenCodec, header: Option<string>, now: int): (r: Reply<Payload>)
    ensures r == Reject(Forbidden, MissingToken) <==> Headers.BearerToken(header).None?
    ensures r == Reject(Unauthorized, BadToken) <==>
              Headers.BearerToken(header).Some? && Verify(codec, Headers.BearerToken(header).value, now).None?
    ensures r.Ok? ==>
              && Headers.BearerToken(header).Some?
              && codec.decode(Headers.BearerToken(header).value) == Some(r.payload)
              && now < r.payload.exp
    ensures r.Reject? ==> r == Reject(Forbidden, MissingToken) || r == Reject(Unauthorized, BadToken)
  {
    match Headers.BearerToken(header)
    case None => Reject(Forbidden, MissingToken)
    case Some(token) =>
      match Verify(codec, token, now)
      case None => Reject(Unauthorized, BadToken)
      case Some(decoded) => Ok(decoded)
  }

  /** `verifyAdmin`: passes the principal on only when its role claim is
      `'admin'`, and answers 403 otherwise. */
  function VerifyAdmin(principal: Payload): (r: Reply<Payload>)
    ensures r.Ok? <==> principal.claims.role == Schema.Admin
    ensures r.Ok? ==> r.payload == principal
    ensures r.Reject? ==> r == Reject(Forbidden, AdminOnly)
  {
    if principal.claims.role != Schema.Admin then Reject(Forbidden, AdminOnly)
    else Ok(principal)
  }

  /** `verifyToken` followed by `verifyAdmin`, the chain in front of the
      admin-only routes. */
  function AdminGate(codec: TokenCodec, header: Option<string>, now: int): (r: Reply<Payload>)
    ensures VerifyToken(codec, header, now).Reject? ==> r == VerifyToken(codec, header, now)
    ensures r.Ok? <==>
              VerifyToken(codec, header, now).Ok? && VerifyToken(codec, header, now).payload.claims.role == Schema.Admin
    ensures r.Ok? ==> r == VerifyToken(codec, header, now)
  {
    match VerifyToken(codec, header, now)
    case Reject(status, message) => Reject(status, message)
    case Ok(principal) => VerifyAdmin(principal)
  }

  /** A token signed for some claims and presented as `Bearer <token>`
      passes the gate, with those claims as the principal, for 24 hours after
      issue; after that it is refused with 401. */
  lemma SignedTokenPassesGate(codec: TokenCodec, claims: Claims, issued: int, now: int)
    requires Faithful(codec, Payload(claims, issued, issued + TokenLifetime))
    requires Headers.HeaderSafe(Sign(codec, claims, issued))
    ensures now < issued + TokenLifetime ==>
              VerifyToken(codec, Some("Bearer " + Sign(codec, claims, issued)), now)
                == Ok(Payload(claims, issued, issued + TokenLifetime))
    ensures issued + TokenLifetime <= now ==>
              VerifyToken(codec, Some("Bearer " + Sign(codec, claims, issued)), now)
                == Reject(Unauthorized, BadToken)
  {
    var token := Sign(codec, claims, issued);
    assert "Bearer " + token == "Bearer" + " " + token + "";
    Headers.BearerTokenOfHeader("Bearer", token, "");
    SignVerify(codec, claims, issued, now);
  }

  /** A principal whose role claim is not `'admin'` is stopped at the admin
      gate with 403 whatever the request, and an admin principal is let
      through unchanged. */
  lemma AdminGateByRole(codec: TokenCodec, header: Option<string>, now: int)
    requires VerifyToken(codec, header, now).Ok?
    ensures VerifyToken(codec, header, now).payload.claims.role != Schema.Admin ==>
              AdminGate(codec, header, now) == Reject(Forbidden, AdminOnly)
    ensures VerifyToken(codec, header, now).payload.claims.role == Schema.Admin ==>
              AdminGate(codec, header, now) == VerifyToken(codec, header, now)
  {
  }
}
