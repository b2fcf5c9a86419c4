/**
 * Signed, time-bound identity tokens (`generateToken` and `jwt.verify`).
 * The signature scheme is abstract: a codec signs claims under a secret
 * and opens a token under a secret, refusing forged or garbled ones.
 * Times are integer seconds.
 */
module Tokens {
  import opened Wrappers

  type UserId = nat

  /** The token payload: subject, issue time and expiry time. */
  datatype Claims = Claims(sub: UserId, iat: int, exp: int)

  datatype TokenCodec = TokenCodec(sign: (Claims, string) -> string, open: (string, string) -> Option<Claims>)

  /** Opening a token signed with the same secret gives back its claims; signed tokens hold no space. */
  ghost predicate Faithful(codec: TokenCodec) {
    forall c: Claims, key: string {:trigger codec.sign(c, key)} ::
      codec.open(codec.sign(c, key), key) == Some(c) && ' ' !in codec.sign(c, key)
  }

  /**
   * `JWT_SECRET` and the lifetime `JWT_EXPIRY` in seconds; `None` stands for
   * an unset variable, and for a lifetime that is not a timespan.
   */
  datatype TokenConfig = TokenConfig(secret: Option<string>, ttl: Option<nat>)

  /** A secret `jsonwebtoken` accepts: set and not empty. */
  predicate HasKey(cfg: TokenConfig) {
    cfg.secret.Some? && cfg.secret.value != ""
  }

  /** `jwt.sign` succeeds only with a usable secret and a valid `expiresIn`. */
  predicate CanSign(cfg: TokenConfig) {
    HasKey(cfg) && cfg.ttl.Some?
  }

  /** What `jwt.verify` reports: the subject, `TokenExpiredError` or `JsonWebTokenError`. */
  datatype Verdict = Valid(sub: UserId) | Expired | Malformed

  /** `generateToken(sub)` at time `now`; `None` when `jwt.sign` throws. */
  function Issue(cfg: TokenConfig, codec: TokenCodec, sub: UserId, now: int): (t: Option<string>)
    ensures t.Some? <==> CanSign(cfg)
  {
    if !CanSign(cfg) then None
    else Some(codec.sign(Claims(sub, now, now + cfg.ttl.value), cfg.secret.value))
  }

  /** `jwt.verify(token, secret)` at time `now`: expired once `now >= exp`; no usable secret is a `JsonWebTokenError`. */
  function Verify(cfg: TokenConfig, codec: TokenCodec, token: string, now: int): (v: Verdict)
    ensures !HasKey(cfg) ==> v == Malformed
    ensures v.Valid? ==> cfg.secret.Some? && exists c: Claims ::
      codec.open(token, cfg.secret.value) == Some(c) && c.sub == v.sub && now < c.exp
    ensures v == Expired ==> cfg.secret.Some? && exists c: Claims ::
      codec.open(token, cfg.secret.value) == Some(c) && now >= c.exp
    ensures HasKey(cfg) && codec.open(token, cfg.secret.value).Some? ==>
      var c := codec.open(token, cfg.secret.value).value;
      v == if now >= c.exp then Expired else Valid(c.sub)
    ensures HasKey(cfg) && codec.open(token, cfg.secret.value).None? ==> v == Malformed
  {
    if !HasKey(cfg) then Malformed
    else
      match codec.open(token, cfg.secret.value)
      case None => Malformed
      case Some(c) => if now >= c.exp then Expired else Valid(c.sub)
  }

  /** An issued token names its subject until its lifetime has elapsed, and is expired afterwards. */
  lemma IssueThenVerify(cfg: TokenConfig, codec: TokenCodec, sub: UserId, issuedAt: int, now: int)
    requires Faithful(codec)
    requires CanSign(cfg)
    ensures Issue(cfg, codec, sub, issuedAt).Some?
    ensures ' ' !in Issue(cfg, codec, sub, issuedAt).value
    ensures Verify(cfg, codec, Issue(cfg, codec, sub, issuedAt).value, now)
      == if now < issuedAt + cfg.ttl.value then Valid(sub) else Expired
  {
    var c := Claims(sub, issuedAt, issuedAt + cfg.ttl.value);
    assert codec.open(codec.sign(c, cfg.secret.value), cfg.secret.value) == Some(c);
  }
}
