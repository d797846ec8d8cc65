/** Access tokens: the settings read from the environment, the claims a token carries and
    their validity window, and the JWT library abstracted by the laws the backend relies on. */
module JwtService {
  import opened Common
  import opened Json
  import Text

  const DefaultSecret := "dev-secret"
  const DefaultAlgorithm := "HS256"
  const DefaultExpiresMinutes := "480"
  const MicrosPerSecond := 1000000

  /** The three module-level settings. */
  datatype Config = Config(secret: string, algorithm: string, expiresMinutes: int)

  /** `os.getenv(name, default)`: an empty value that is set is kept. */
  function GetEnv(env: map<string, string>, name: string, default: string): string {
    if name in env then env[name] else default
  }

  /** The settings as the module computes them at import time; `parseInt` is Python's
      `int()` on a string, None where it raises, in which case the import fails. */
  function LoadConfig(env: map<string, string>, parseInt: string -> Option<int>): (r: Option<Config>)
    ensures r.Some? <==> parseInt(GetEnv(env, "JWT_EXPIRES_MINUTES", DefaultExpiresMinutes)).Some?
    ensures r.Some? ==> r.value.secret == GetEnv(env, "JWT_SECRET", DefaultSecret)
    ensures r.Some? ==> r.value.algorithm == GetEnv(env, "JWT_ALGORITHM", DefaultAlgorithm)
    ensures r.Some? ==> Some(r.value.expiresMinutes) == parseInt(GetEnv(env, "JWT_EXPIRES_MINUTES", DefaultExpiresMinutes))
  {
    match parseInt(GetEnv(env, "JWT_EXPIRES_MINUTES", DefaultExpiresMinutes))
    case None => None
    case Some(m) => Some(Config(GetEnv(env, "JWT_SECRET", DefaultSecret),
                                GetEnv(env, "JWT_ALGORITHM", DefaultAlgorithm), m))
  }

  /** With nothing set, the settings are the development defaults: "dev-secret", HS256 and
      eight hours. */
  lemma DefaultConfig(parseInt: string -> Option<int>)
    requires parseInt(DefaultExpiresMinutes) == Some(480)
    ensures LoadConfig(map[], parseInt) == Some(Config("dev-secret", "HS256", 480))
  {
  }

  /** Python's `int()` on a number: truncation toward zero. */
  function TruncDiv(a: int, b: int): (q: int)
    requires b > 0
    ensures a >= 0 ==> q == a / b
    ensures a >= 0 ==> 0 <= a - q * b < b
    ensures a < 0 ==> q <= 0 && 0 <= q * b - a < b
  {
    if a >= 0 then a / b else -((-a) / b)
  }

  /** Euclidean quotients are determined by the remainder's range. */
  lemma DivUnique(x: int, b: int, q: int, r: int)
    requires b > 0 && 0 <= r < b && x == q * b + r
    ensures x / b == q
  {
    var q', r' := x / b, x % b;
    var d := q - q';
    assert d * b == q * b - q' * b;
    assert d * b == r' - r;
    if d >= 1 {
      MulAtLeast(d, b);
    } else if d <= -1 {
      MulAtLeast(-d, b);
    }
  }

  /** A product of a positive factor and a positive multiplier is at least the multiplier. */
  lemma MulAtLeast(d: int, b: int)
    requires d >= 1 && b > 0
    ensures d * b >= b
  {
    assert d * b == b + (d - 1) * b;
  }

  /** Shifting by whole multiples of `b` shifts the quotient. */
  lemma DivShift(a: int, k: int, b: int)
    requires b > 0
    ensures (a + k * b) / b == a / b + k
  {
    var q, r := a / b, a % b;
    assert a + k * b == (q + k) * b + r;
    DivUnique(a + k * b, b, q + k, r);
  }

  /** The claims `create_access_token` signs, given the current time in microseconds. */
  function Claims(cfg: Config, userId: string, email: string, role: string, nowMicros: int)
    : (m: map<string, Value>)
    ensures m.Keys == {"sub", "email", "role", "iat", "exp"}
    ensures m["sub"] == Str(userId) && m["email"] == Str(email) && m["role"] == Str(role)
  {
    map["sub" := Str(userId),
        "email" := Str(email),
        "role" := Str(role),
        "iat" := Num(TruncDiv(nowMicros, MicrosPerSecond)),
        "exp" := Num(TruncDiv(nowMicros + cfg.expiresMinutes * 60 * MicrosPerSecond, MicrosPerSecond))]
  }

  /** For times after the epoch and a non-negative lifetime, a token lives exactly the
      configured number of minutes, counted in whole seconds. */
  lemma ExpiryWindow(cfg: Config, userId: string, email: string, role: string, nowMicros: int)
    requires nowMicros >= 0 && cfg.expiresMinutes >= 0
    ensures var m := Claims(cfg, userId, email, role, nowMicros);
            m["exp"].Num? && m["iat"].Num? && m["exp"].n - m["iat"].n == 60 * cfg.expiresMinutes
            && m["iat"].n * MicrosPerSecond <= nowMicros
  {
    var k := cfg.expiresMinutes * 60;
    assert cfg.expiresMinutes * 60 * MicrosPerSecond == k * MicrosPerSecond;
    DivShift(nowMicros, k, MicrosPerSecond);
  }

  /** What `jwt.decode` reports. */
  datatype Decoded = Payload(claims: map<string, Value>) | ExpiredSignature | InvalidToken

  /** PyJWT's `encode(payload, key, algorithm)` and `decode(token, key, algorithms)` at a
      given time in whole seconds. */
  datatype JwtLib = JwtLib(encode: (map<string, Value>, string, string) -> string,
                           decode: (string, string, seq<string>, Time) -> Decoded)

  /** `exp` has passed: PyJWT rejects a token once the current time reaches `exp`. */
  predicate ExpiredAt(claims: map<string, Value>, now: Time) {
    "exp" in claims && claims["exp"].Num? && claims["exp"].n <= now
  }

  /** `iat` lies in the future. */
  predicate IssuedAfter(claims: map<string, Value>, now: Time) {
    "iat" in claims && claims["iat"].Num? && claims["iat"].n > now
  }

  /** What the backend relies on from the library: a token decodes, under its own key and
      algorithm, to the claims it was made from until it expires; under another key it is
      invalid; and a token is never wrapped in whitespace. */
  ghost predicate Lawful(lib: JwtLib) {
    && (forall claims, key, alg, now ::
          lib.decode(lib.encode(claims, key, alg), key, [alg], now)
          == if IssuedAfter(claims, now) then InvalidToken
             else if ExpiredAt(claims, now) then ExpiredSignature
             else Payload(claims))
    && (forall claims, key, other, alg, now :: other != key ==>
          lib.decode(lib.encode(claims, key, alg), other, [alg], now) == InvalidToken)
    && (forall claims, key, alg :: Text.Trimmed(lib.encode(claims, key, alg)))
  }

  /** `create_access_token(user_id, email, role)`. */
  function CreateAccessToken(cfg: Config, lib: JwtLib, userId: string, email: string, role: string,
                             nowMicros: int): (r: string)
    ensures Lawful(lib) ==> Text.Trimmed(r)
  {
    lib.encode(Claims(cfg, userId, email, role, nowMicros), cfg.secret, cfg.algorithm)
  }

  /** `decode_token(token)`: only the configured algorithm is accepted. */
  function DecodeToken(cfg: Config, lib: JwtLib, token: string, now: Time): (r: Decoded)
    ensures Lawful(lib) ==> forall claims :: token == lib.encode(claims, cfg.secret, cfg.algorithm) ==>
              r == if IssuedAfter(claims, now) then InvalidToken
                   else if ExpiredAt(claims, now) then ExpiredSignature
                   else Payload(claims)
    ensures Lawful(lib) ==> forall claims, key :: key != cfg.secret && token == lib.encode(claims, key, cfg.algorithm) ==>
              r == InvalidToken
  {
    lib.decode(token, cfg.secret, [cfg.algorithm], now)
  }

  /** A token decodes to its claims from the second it was issued until the second before
      it expires, and as expired from then on. */
  lemma {:induction false} TokenLifetime(cfg: Config, lib: JwtLib, userId: string, email: string,
                                         role: string, nowMicros: int, now: Time)
    requires Lawful(lib)
    requires nowMicros >= 0 && cfg.expiresMinutes >= 0
    requires nowMicros / MicrosPerSecond <= now
    ensures var token := CreateAccessToken(cfg, lib, userId, email, role, nowMicros);
            var claims := Claims(cfg, userId, email, role, nowMicros);
            && (now < nowMicros / MicrosPerSecond + 60 * cfg.expiresMinutes ==>
                  DecodeToken(cfg, lib, token, now) == Payload(claims))
            && (now >= nowMicros / MicrosPerSecond + 60 * cfg.expiresMinutes ==>
                  DecodeToken(cfg, lib, token, now) == ExpiredSignature)
  {
    var claims := Claims(cfg, userId, email, role, nowMicros);
    ExpiryWindow(cfg, userId, email, role, nowMicros);
    assert !IssuedAfter(claims, now);
    assert lib.decode(lib.encode(claims, cfg.secret, cfg.algorithm), cfg.secret, [cfg.algorithm], now)
        == if IssuedAfter(claims, now) then InvalidToken
           else if ExpiredAt(claims, now) then ExpiredSignature
           else Payload(claims);
  }

  /** A token signed under another secret is rejected. */
  lemma ForeignSecretRejected(cfg: Config, other: Config, lib: JwtLib, userId: string, email: string,
                              role: string, nowMicros: int, now: Time)
    requires Lawful(lib)
    requires other.secret != cfg.secret && other.algorithm == cfg.algorithm
    ensures DecodeToken(cfg, lib, CreateAccessToken(other, lib, userId, email, role, nowMicros), now)
            == InvalidToken
  {
    var claims := Claims(other, userId, email, role, nowMicros);
    assert lib.decode(lib.encode(claims, other.secret, other.algorithm), cfg.secret, [other.algorithm], now)
        == InvalidToken;
  }
}
