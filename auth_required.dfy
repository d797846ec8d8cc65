/** The two request guards: `auth_required`, which admits a request carrying a valid bearer
    token and records its claims in the request globals, and `admin_required`, which admits
    only the admin role. */
module AuthRequired {
  import opened Common
  import opened Json
  import Text
  import JwtService

  const BearerPrefix := "Bearer "
  const MsgMissingBearer := "Falta Authorization: Bearer <token>"
  const MsgExpired := "Token expirado"
  const MsgInvalid := "Token inválido"
  const MsgMissingClaims := "Token inválido (faltan claims)"
  const MsgAdminRequired := "No autorizado (admin requerido)"

  /** A guard's verdict: call the view, or answer with this status and error message. */
  datatype Gate = Proceed | Deny(status: int, message: string)

  /** `auth.split(" ", 1)[1].strip()` on a header that starts with "Bearer ", None on any
      other header. */
  function BearerToken(header: string): (r: Option<string>)
    ensures r.Some? <==> Text.StartsWith(header, BearerPrefix)
  {
    if !Text.StartsWith(header, BearerPrefix) then None
    else
      assert header[..7][6] == ' ' && header[6] in header;
      Some(Text.Strip(Text.AfterFirst(header, ' ').value))
  }

  /** A token is read exactly from a header that starts with "Bearer ", and is the header
      after that prefix, stripped. */
  lemma BearerTokenSpec(header: string)
    ensures BearerToken(header).Some? <==> Text.StartsWith(header, BearerPrefix)
    ensures BearerToken(header).Some? ==> BearerToken(header).value == Text.Strip(header[|BearerPrefix|..])
  {
    if Text.StartsWith(header, BearerPrefix) {
      assert header[..6] == header[..7][..6];
      Text.AfterFirstAt(header, ' ', 6);
    }
  }

  /** A token without surrounding whitespace is read back from its header. */
  lemma BearerRoundTrip(token: string)
    requires Text.Trimmed(token)
    ensures BearerToken(BearerPrefix + token) == Some(token)
  {
    var h := BearerPrefix + token;
    assert h[..|BearerPrefix|] == BearerPrefix;
    assert h[|BearerPrefix|..] == token;
    BearerTokenSpec(h);
    Text.StripTrimmed(token);
  }

  /** The header check and the token decoding of `auth_required`: the decoded payload, or
      the 401 answer for a missing bearer header, an expired token or an invalid one. */
  function Verify(header: string, cfg: JwtService.Config, lib: JwtService.JwtLib, now: Time)
    : (r: Result<map<string, Value>, Gate>)
    ensures r.Err? ==> r.error.Deny? && r.error.status == 401
    ensures r.Ok? <==> && BearerToken(header).Some?
                       && JwtService.DecodeToken(cfg, lib, BearerToken(header).value, now).Payload?
    ensures r.Ok? ==> r.value == JwtService.DecodeToken(cfg, lib, BearerToken(header).value, now).claims
    ensures !Text.StartsWith(header, BearerPrefix) ==> r == Err(Deny(401, MsgMissingBearer))
  {
    BearerTokenSpec(header);
    match BearerToken(header)
    case None => Err(Deny(401, MsgMissingBearer))
    case Some(token) =>
      match JwtService.DecodeToken(cfg, lib, token, now)
      case ExpiredSignature => Err(Deny(401, MsgExpired))
      case InvalidToken => Err(Deny(401, MsgInvalid))
      case Payload(c) => Ok(c)
  }

  /** The verdict `auth_required` reaches for an `Authorization` header (missing is ""). */
  function Admission(header: string, cfg: JwtService.Config, lib: JwtService.JwtLib, now: Time): (r: Gate)
    ensures r.Deny? ==> r.status == 401
    ensures Verify(header, cfg, lib, now).Err? ==> r == Verify(header, cfg, lib, now).error
    ensures r == Proceed <==>
              && Verify(header, cfg, lib, now).Ok?
              && Truthy(Get(Verify(header, cfg, lib, now).value, "sub"))
              && Truthy(Get(Verify(header, cfg, lib, now).value, "role"))
  {
    match Verify(header, cfg, lib, now)
    case Err(refusal) => refusal
    case Ok(c) =>
      if !Truthy(Get(c, "sub")) || !Truthy(Get(c, "role")) then Deny(401, MsgMissingClaims)
      else Proceed
  }

  /** A header carrying a token is answered by what decoding exactly that token gives. */
  lemma AdmissionOfBearer(header: string, token: string, cfg: JwtService.Config, lib: JwtService.JwtLib, now: Time)
    requires BearerToken(header) == Some(token)
    ensures var d := JwtService.DecodeToken(cfg, lib, token, now);
            && (d.Payload? && Truthy(Get(d.claims, "sub")) && Truthy(Get(d.claims, "role")) ==>
                  Admission(header, cfg, lib, now) == Proceed)
            && (d.ExpiredSignature? ==> Admission(header, cfg, lib, now) == Deny(401, MsgExpired))
            && (d.InvalidToken? ==> Admission(header, cfg, lib, now) == Deny(401, MsgInvalid))
  {
  }

  /** A token just issued by `create_access_token` to a user with an id and a role, sent in
      a bearer header (`BearerRoundTrip`: "Bearer " followed by the token is one), is
      admitted until it expires. */
  lemma {:induction false} FreshTokenAdmitted(header: string, cfg: JwtService.Config, lib: JwtService.JwtLib,
                                              userId: string, email: string, role: string,
                                              nowMicros: int, now: Time)
    requires JwtService.Lawful(lib)
    requires userId != "" && role != ""
    requires nowMicros >= 0 && cfg.expiresMinutes >= 0
    requires nowMicros / JwtService.MicrosPerSecond <= now < nowMicros / JwtService.MicrosPerSecond + 60 * cfg.expiresMinutes
    requires BearerToken(header) == Some(JwtService.CreateAccessToken(cfg, lib, userId, email, role, nowMicros))
    ensures Admission(header, cfg, lib, now) == Proceed
  {
    var token := JwtService.CreateAccessToken(cfg, lib, userId, email, role, nowMicros);
    var claims := JwtService.Claims(cfg, userId, email, role, nowMicros);
    JwtService.TokenLifetime(cfg, lib, userId, email, role, nowMicros, now);
    assert JwtService.DecodeToken(cfg, lib, token, now) == JwtService.Payload(claims);
    assert Get(claims, "sub") == Str(userId) && Get(claims, "role") == Str(role);
    AdmissionOfBearer(header, token, cfg, lib, now);
  }

  /** The same token is answered "Token expirado" from its expiry on. */
  lemma {:induction false} ExpiredTokenRefused(header: string, cfg: JwtService.Config, lib: JwtService.JwtLib,
                                               userId: string, email: string, role: string,
                                               nowMicros: int, now: Time)
    requires JwtService.Lawful(lib)
    requires nowMicros >= 0 && cfg.expiresMinutes >= 0
    requires nowMicros / JwtService.MicrosPerSecond + 60 * cfg.expiresMinutes <= now
    requires BearerToken(header) == Some(JwtService.CreateAccessToken(cfg, lib, userId, email, role, nowMicros))
    ensures Admission(header, cfg, lib, now) == Deny(401, MsgExpired)
  {
    var token := JwtService.CreateAccessToken(cfg, lib, userId, email, role, nowMicros);
    JwtService.TokenLifetime(cfg, lib, userId, email, role, nowMicros, now);
    assert JwtService.DecodeToken(cfg, lib, token, now) == JwtService.ExpiredSignature;
    AdmissionOfBearer(header, token, cfg, lib, now);
  }

  /** Flask's `g` for one request: an attribute never assigned is None here. */
  class RequestGlobals {
    var jwt: Option<map<string, Value>>
    var userId: Option<Value>
    var email: Option<Value>
    var role: Option<Value>

    constructor ()
      ensures jwt.None? && userId.None? && email.None? && role.None?
    {
      jwt, userId, email, role := None, None, None, None;
    }

    /** `g.jwt = payload` followed by the three claim attributes. */
    method Record(payload: map<string, Value>)
      modifies this
      ensures jwt == Some(payload) && userId == Some(Get(payload, "sub"))
      ensures email == Some(Get(payload, "email")) && role == Some(Get(payload, "role"))
    {
      jwt := Some(payload);
      userId := Some(Get(payload, "sub"));
      email := Some(Get(payload, "email"));
      role := Some(Get(payload, "role"));
    }
  }

  /** `auth_required`'s wrapper: a decoded payload is recorded in `g` before the claims are
      checked, so a token missing a claim still leaves its payload there. */
  method AuthRequired(g: RequestGlobals, header: string, cfg: JwtService.Config,
                      lib: JwtService.JwtLib, now: Time) returns (gate: Gate)
    modifies g
    ensures gate == Admission(header, cfg, lib, now)
    ensures var v := Verify(header, cfg, lib, now);
            v.Ok? ==> && g.jwt == Some(v.value) && g.userId == Some(Get(v.value, "sub"))
                      && g.email == Some(Get(v.value, "email")) && g.role == Some(Get(v.value, "role"))
    ensures Verify(header, cfg, lib, now).Err? ==> unchanged(g)
  {
    var verified := Verify(header, cfg, lib, now);
    if verified.Err? {
      return verified.error;
    }
    g.Record(verified.value);
    if !Truthy(g.userId.value) || !Truthy(g.role.value) {
      return Deny(401, MsgMissingClaims);
    }
    gate := Proceed;
  }

  /** `getattr(g, "role", None) or (g.jwt.get("role") if hasattr(g, "jwt") else None)`. */
  function EffectiveRole(role: Option<Value>, jwt: Option<map<string, Value>>): (r: Value)
    ensures role.Some? && Truthy(role.value) ==> r == role.value
    ensures (role.None? || !Truthy(role.value)) && jwt.Some? ==> r == Get(jwt.value, "role")
    ensures (role.None? || !Truthy(role.value)) && jwt.None? ==> r == Null
  {
    var attr := if role.Some? then role.value else Null;
    if Truthy(attr) then attr else if jwt.Some? then Get(jwt.value, "role") else Null
  }

  /** `admin_required`'s wrapper: only the role string "admin" passes. */
  function AdminRequired(g: RequestGlobals): (r: Gate)
    reads g
    ensures r == Proceed <==> EffectiveRole(g.role, g.jwt) == Str("admin")
    ensures r.Deny? ==> r == Deny(403, MsgAdminRequired)
  {
    if EffectiveRole(g.role, g.jwt) != Str("admin") then Deny(403, MsgAdminRequired) else Proceed
  }

  /** After `auth_required` admitted a payload, `admin_required` passes exactly when the
      payload's role is "admin"; the fallback to `g.jwt` is then never used. */
  lemma AdminAfterAdmission(c: map<string, Value>)
    requires Truthy(Get(c, "role"))
    ensures EffectiveRole(Some(Get(c, "role")), Some(c)) == Str("admin") <==> Get(c, "role") == Str("admin")
  {
  }
}
