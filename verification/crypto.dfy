/** The two foreign libraries the core leans on, left abstract: bcrypt as a
    pair of functions, and jsonwebtoken as a codec whose signing secret is
    baked in. Only what the server relies on — the 24-hour lifetime and the
    expiry check — is modelled explicitly. */
module Crypto {
  import opened Outcomes

  /** The random salt bcrypt draws for each hash. */
  type Salt = nat

  /** bcrypt: `hash(pw, salt)` is the digest `hashSync(pw, 10)` returns when it
      draws `salt`; `matches(pw, digest)` is `compareSync`, false on a
      malformed digest. */
  datatype Hasher = Hasher(hash: (string, Salt) -> string, matches: (string, string) -> bool)

  /** A sound hasher: every digest it produces verifies against its own
      plaintext. */
  ghost predicate Sound(h: Hasher)
  {
    forall pw, salt :: h.matches(pw, h.hash(pw, salt))
  }

  /** Token lifetime, `expiresIn: '24h'`, in seconds. */
  const TokenLifetime := 86400

  /** The claims the login signs: `{id, username, role}` of the user's row. */
  datatype Claims = Claims(id: int, username: string, role: string)

  /** A decoded token: the signed claims plus the `iat` and `exp` timestamps
      (seconds) jsonwebtoken adds. */
  datatype Payload = Payload(claims: Claims, iat: int, exp: int)

  /** jsonwebtoken with the process-wide secret: `encode` signs a payload,
      `decode` checks the signature and structure (None when they fail). */
  datatype TokenCodec = TokenCodec(encode: Payload -> string, decode: string -> Option<Payload>)

  /** The codec recovers `p` from the token it signs for `p` — what a correct
      signature scheme provides. */
  predicate Faithful(codec: TokenCodec, p: Payload)
  {
    codec.decode(codec.encode(p)) == Some(p)
  }

  /** `jwt.sign(claims, secret, {expiresIn: '24h'})` at time `now`. */
  function Sign(codec: TokenCodec, claims: Claims, now: int): string
  {
    codec.encode(Payload(claims, now, now + TokenLifetime))
  }

  /** `jwt.verify(token, secret)` at time `now`: a token that decodes is
      accepted only while `now` is before its `exp`. */
  function Verify(codec: TokenCodec, token: string, now: int): (r: Option<Payload>)
    ensures r.Some? <==> codec.decode(token).Some? && now < codec.decode(token).value.exp
    ensures r.Some? ==> r == codec.decode(token)
  {
    match codec.decode(token)
    case None => None
    case Some(p) => if now < p.exp then Some(p) else None
  }

  /** A signed token verifies, with exactly the signed claims, for the 24
      hours after it was issued and from then on is refused as expired. */
  lemma SignVerify(codec: TokenCodec, claims: Claims, issued: int, now: int)
    requires Faithful(codec, Payload(claims, issued, issued + TokenLifetime))
    ensures Verify(codec, Sign(codec, claims, issued), now).Some? <==> now < issued + TokenLifetime
    ensures Verify(codec, Sign(codec, claims, issued), now).Some? ==>
              Verify(codec, Sign(codec, claims, issued), now).value
                == Payload(claims, issued, issued + TokenLifetime)
  {
  }
}
