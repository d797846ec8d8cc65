/** Registration and login against the users table: input checks, e-mail normalisation,
    password hashing, and the rule that the stored hash never leaves the service. */
module AuthService {
  import opened Common
  import Text
  import Tables

  const MsgRegisterRequired := "full_name, email y password son requeridos"
  const MsgShortPassword := "La contraseña debe tener al menos 6 caracteres"
  const MsgEmailTaken := "El email ya está registrado"
  const MsgLoginRequired := "email y password son requeridos"
  const MsgBadCredentials := "Credenciales inválidas"
  const MsgInactive := "Usuario inactivo"

  const MinPasswordLength := 6
  /** The width of the `full_name` and `email` columns, `String(120)`. */
  const MaxColumnLength := 120
  /** The database's refusal of a longer value at `INSERT`; it is not one of the
      `ValueError`s `register` raises itself. */
  const MsgValueTooLong := "value too long for type character varying(120)"
  const DefaultRole := "user"

  /** One row of the users table. */
  datatype UserRow = UserRow(
    id: nat,
    fullName: string,
    email: string,
    passwordHash: string,
    role: string,
    isActive: bool,
    createdAt: Time,
    updatedAt: Time)

  /** A user as the service hands it out: every column but the password hash. */
  datatype PublicUser = PublicUser(
    id: nat,
    fullName: string,
    email: string,
    role: string,
    isActive: bool,
    createdAt: Time,
    updatedAt: Time)

  /** The row without its hash. */
  function Public(u: UserRow): (p: PublicUser)
    ensures p.id == u.id && p.fullName == u.fullName && p.email == u.email
    ensures p.role == u.role && p.isActive == u.isActive
    ensures p.createdAt == u.createdAt && p.updatedAt == u.updatedAt
  {
    PublicUser(u.id, u.fullName, u.email, u.role, u.isActive, u.createdAt, u.updatedAt)
  }

  /** werkzeug's `generate_password_hash` (the salt it draws is a parameter here) and
      `check_password_hash`. */
  datatype Hasher = Hasher(generate: (string, nat) -> string, check: (string, string) -> bool)

  /** A hash accepts the password it was made from. */
  ghost predicate Sound(h: Hasher) {
    forall password, salt :: h.check(h.generate(password, salt), password)
  }

  /** A hash rejects every other password (collisions are not modelled). */
  ghost predicate Exact(h: Hasher) {
    forall password, salt, other :: other != password ==> !h.check(h.generate(password, salt), other)
  }

  /** `email.strip().lower()`. */
  function NormalizeEmail(email: string): (r: string)
    ensures Text.Trimmed(r) && |r| <= |email|
    ensures forall i :: 0 <= i < |r| ==> !Text.IsUpper(r[i])
    ensures |r| == |Text.Strip(email)|
    ensures forall i :: 0 <= i < |r| ==> r[i] == Text.LowerChar(Text.Strip(email)[i])
  {
    Text.Lower(Text.Strip(email))
  }

  /** Normalising an address twice is normalising it once. */
  lemma NormalizeIdempotent(email: string)
    ensures NormalizeEmail(NormalizeEmail(email)) == NormalizeEmail(email)
  {
    var n := NormalizeEmail(email);
    Text.StripTrimmed(n);
    Text.LowerIdempotent(Text.Strip(email));
  }

  function IdOf(u: UserRow): nat { u.id }
  function EmailOf(u: UserRow): string { u.email }

  /** `SELECT ... FROM users WHERE email = %s`: the position of the row with that address. */
  function FindByEmail(users: seq<UserRow>, email: string): (r: Option<nat>)
    ensures r.Some? ==> r.value < |users| && users[r.value].email == email
    ensures r.Some? ==> forall j :: 0 <= j < r.value ==> users[j].email != email
    ensures r.None? <==> forall i :: 0 <= i < |users| ==> users[i].email != email
  {
    Tables.IndexOf(users, email, EmailOf)
  }

  /** The row `register` inserts: a stripped name, the normalised address, the hash, role
      "user", active. */
  function NewUser(id: nat, fullName: string, email: string, hash: string, now: Time): (u: UserRow)
    ensures u.id == id && u.role == DefaultRole && u.isActive && u.passwordHash == hash
    ensures u.fullName == Text.Strip(fullName) && u.email == NormalizeEmail(email)
    ensures u.createdAt == now && u.updatedAt == now
  {
    UserRow(id, Text.Strip(fullName), NormalizeEmail(email), hash, DefaultRole, true, now, now)
  }

  /** `authenticate(email, password)`: the public form of the active user whose address is
      the normalised input and whose hash accepts the password. An unknown address and a
      wrong password give the same message. */
  function Authenticate(users: seq<UserRow>, h: Hasher, email: string, password: string)
    : (r: Result<PublicUser, string>)
    ensures email == "" || password == "" ==> r == Err(MsgLoginRequired)
    ensures r.Ok? <==> && email != "" && password != ""
                       && FindByEmail(users, NormalizeEmail(email)).Some?
                       && users[FindByEmail(users, NormalizeEmail(email)).value].isActive
                       && h.check(users[FindByEmail(users, NormalizeEmail(email)).value].passwordHash, password)
    ensures r.Ok? ==> r.value == Public(users[FindByEmail(users, NormalizeEmail(email)).value])
                      && r.value.email == NormalizeEmail(email) && r.value.isActive
    ensures r.Err? ==> r.error in {MsgLoginRequired, MsgBadCredentials, MsgInactive}
    ensures r == Err(MsgInactive) ==> FindByEmail(users, NormalizeEmail(email)).Some?
    ensures email != "" && password != "" && FindByEmail(users, NormalizeEmail(email)).None?
            ==> r == Err(MsgBadCredentials)
    ensures email != "" && password != "" && FindByEmail(users, NormalizeEmail(email)).Some?
            ==> var u := users[FindByEmail(users, NormalizeEmail(email)).value];
                && (!u.isActive ==> r == Err(MsgInactive))
                && (u.isActive && !h.check(u.passwordHash, password) ==> r == Err(MsgBadCredentials))
  {
    if email == "" || password == "" then Err(MsgLoginRequired)
    else
      match FindByEmail(users, NormalizeEmail(email))
      case None => Err(MsgBadCredentials)
      case Some(i) =>
        if !users[i].isActive then Err(MsgInactive)
        else if !h.check(users[i].passwordHash, password) then Err(MsgBadCredentials)
        else Ok(Public(users[i]))
  }

  /** Logging in only depends on the address up to surrounding whitespace and case. */
  lemma LoginIgnoresEmailForm(users: seq<UserRow>, h: Hasher, email: string, password: string)
    requires NormalizeEmail(email) != ""
    ensures Authenticate(users, h, NormalizeEmail(email), password) == Authenticate(users, h, email, password)
  {
    NormalizeIdempotent(email);
  }

  /** A row added under a fresh address, from a password of the right form, accepts exactly
      that password at login (with a sound and exact hasher). */
  lemma {:induction false} LoginAfterInsert(users: seq<UserRow>, h: Hasher, row: UserRow,
                                            email: string, password: string, salt: nat)
    requires Sound(h)
    requires FindByEmail(users, NormalizeEmail(email)).None?
    requires row.email == NormalizeEmail(email) && row.isActive
    requires row.passwordHash == h.generate(password, salt)
    requires email != "" && password != ""
    ensures Authenticate(users + [row], h, email, password) == Ok(Public(row))
    ensures Exact(h) ==> forall other :: other != "" && other != password ==>
              Authenticate(users + [row], h, email, other) == Err(MsgBadCredentials)
  {
    var s := users + [row];
    Tables.IndexOfFound(s, |users|, row.email, EmailOf);
    assert FindByEmail(s, NormalizeEmail(email)) == Some(|users|);
  }

  /** `get_user_by_id`: the public form of the row with that id, if there is one. */
  function GetUserById(users: seq<UserRow>, id: nat): (r: Option<PublicUser>)
    ensures r.Some? <==> exists i :: 0 <= i < |users| && users[i].id == id
    ensures r.Some? ==> r.value.id == id && exists i :: 0 <= i < |users| && r.value == Public(users[i])
  {
    match Tables.IndexOf(users, id, IdOf)
    case None => None
    case Some(i) => Some(Public(users[i]))
  }

  /** `register`'s checks in order, then the `INSERT`, which the database refuses for a
      name or address wider than its column; the row inserted when all pass. */
  function Registration(users: seq<UserRow>, nextId: nat, h: Hasher, salt: nat, fullName: string,
                        email: string, password: string, now: Time): (r: Result<UserRow, string>)
    ensures r.Err? ==> r.error in {MsgRegisterRequired, MsgShortPassword, MsgEmailTaken, MsgValueTooLong}
    ensures r.Ok? ==> r.value.id == nextId && FindByEmail(users, r.value.email).None?
    ensures r.Ok? ==> |r.value.fullName| <= MaxColumnLength && |r.value.email| <= MaxColumnLength
  {
    if fullName == "" || email == "" || password == "" then Err(MsgRegisterRequired)
    else if |password| < MinPasswordLength then Err(MsgShortPassword)
    else if FindByEmail(users, NormalizeEmail(email)).Some? then Err(MsgEmailTaken)
    else if |Text.Strip(fullName)| > MaxColumnLength || |NormalizeEmail(email)| > MaxColumnLength
    then Err(MsgValueTooLong)
    else Ok(NewUser(nextId, fullName, email, h.generate(password, salt), now))
  }

  /** The emptiness check is on the raw inputs and comes first, then the length of the raw
      password, then the uniqueness of the normalised address, and last the column width
      the `INSERT` enforces; a registration succeeds exactly when all four pass, under the
      next id and an unused address. */
  lemma RegistrationOutcome(users: seq<UserRow>, nextId: nat, h: Hasher, salt: nat, fullName: string,
                            email: string, password: string, now: Time)
    ensures var r := Registration(users, nextId, h, salt, fullName, email, password, now);
            && (fullName == "" || email == "" || password == "" ==> r == Err(MsgRegisterRequired))
            && ((fullName != "" && email != "" && password != "" && |password| < MinPasswordLength)
                ==> r == Err(MsgShortPassword))
            && ((fullName != "" && email != "" && |password| >= MinPasswordLength
                 && FindByEmail(users, NormalizeEmail(email)).Some?) ==> r == Err(MsgEmailTaken))
            && ((fullName != "" && email != "" && |password| >= MinPasswordLength
                 && FindByEmail(users, NormalizeEmail(email)).None?
                 && (|Text.Strip(fullName)| > MaxColumnLength || |NormalizeEmail(email)| > MaxColumnLength))
                ==> r == Err(MsgValueTooLong))
            && (r.Ok? <==> && fullName != "" && email != "" && |password| >= MinPasswordLength
                           && FindByEmail(users, NormalizeEmail(email)).None?
                           && |Text.Strip(fullName)| <= MaxColumnLength && |NormalizeEmail(email)| <= MaxColumnLength)
            && (r.Ok? ==> r.value == NewUser(nextId, fullName, email, h.generate(password, salt), now)
                          && FindByEmail(users, r.value.email).None?)
  {
  }

  /** After a registration, its password logs in with the given address; with an exact hash
      no other password does. */
  lemma RegistrationLogsIn(users: seq<UserRow>, nextId: nat, h: Hasher, salt: nat, fullName: string,
                           email: string, password: string, now: Time)
    requires Sound(h)
    requires Registration(users, nextId, h, salt, fullName, email, password, now).Ok?
    ensures var row := Registration(users, nextId, h, salt, fullName, email, password, now).value;
            && Authenticate(users + [row], h, email, password) == Ok(Public(row))
            && (Exact(h) ==> forall other :: other != "" && other != password ==>
                  Authenticate(users + [row], h, email, other) == Err(MsgBadCredentials))
  {
    RegistrationOutcome(users, nextId, h, salt, fullName, email, password, now);
    var row := NewUser(nextId, fullName, email, h.generate(password, salt), now);
    LoginAfterInsert(users, h, row, email, password, salt);
  }

  /** What the users table keeps: unique ids below the counter and unique addresses. */
  predicate Accounts(users: seq<UserRow>, nextId: nat) {
    && Tables.UniqueKeys(users, IdOf)
    && Tables.UniqueKeys(users, EmailOf)
    && (forall u :: u in users ==> u.id < nextId)
  }

  /** A row under the next id and an unused address keeps the table's invariant. */
  lemma AccountsAppend(users: seq<UserRow>, nextId: nat, row: UserRow)
    requires Accounts(users, nextId) && row.id == nextId
    requires FindByEmail(users, row.email).None?
    ensures Accounts(users + [row], nextId + 1)
  {
    Tables.AppendUnique(users, row, EmailOf);
    forall j | 0 <= j < |users| ensures IdOf(users[j]) != row.id {
      assert users[j] in users;
    }
    Tables.AppendUnique(users, row, IdOf);
  }

  /** The users table. Ids come from a counter (the database draws them). */
  class UserStore {
    var users: seq<UserRow>
    var nextId: nat

    /** Ids and addresses are unique. */
    ghost predicate Valid()
      reads this
    {
      Accounts(users, nextId)
    }

    constructor ()
      ensures Valid() && users == [] && nextId == 0
    {
      users, nextId := [], 0;
    }

    /** `register(full_name, email, password)`: the row `Registration` decides on is inserted,
        and its public form returned. */
    method Register(h: Hasher, salt: nat, fullName: string, email: string, password: string, now: Time)
      returns (r: Result<PublicUser, string>)
      requires Valid()
      modifies this
      ensures Valid()
      ensures var reg := Registration(old(users), old(nextId), h, salt, fullName, email, password, now);
              && (reg.Err? ==> r == Err(reg.error) && users == old(users) && nextId == old(nextId))
              && (reg.Ok? ==> r == Ok(Public(reg.value)) && users == old(users) + [reg.value]
                              && nextId == old(nextId) + 1)
      ensures r.Ok? && Sound(h) ==> Authenticate(users, h, email, password) == Ok(r.value)
    {
      RegistrationOutcome(users, nextId, h, salt, fullName, email, password, now);
      if fullName == "" || email == "" || password == "" {
        return Err(MsgRegisterRequired);
      }
      var normalized := NormalizeEmail(email);
      if |password| < MinPasswordLength {
        return Err(MsgShortPassword);
      }
      var hash := h.generate(password, salt);
      if FindByEmail(users, normalized).Some? {
        return Err(MsgEmailTaken);
      }
      if |Text.Strip(fullName)| > MaxColumnLength || |normalized| > MaxColumnLength {
        return Err(MsgValueTooLong);
      }
      var row := NewUser(nextId, fullName, email, hash, now);
      assert Registration(users, nextId, h, salt, fullName, email, password, now) == Ok(row);
      if Sound(h) {
        RegistrationLogsIn(users, nextId, h, salt, fullName, email, password, now);
      }
      AccountsAppend(users, nextId, row);
      users := users + [row];
      nextId := nextId + 1;
      r := Ok(Public(row));
    }
  }

  /** The emptiness check looks at the raw inputs: a name and an address made only of
      whitespace pass it, and the row is stored with an empty name and address. */
  lemma BlankInputsRegister(users: seq<UserRow>, h: Hasher, id: nat, salt: nat, password: string, now: Time)
    requires |password| >= MinPasswordLength
    ensures NewUser(id, " ", " ", h.generate(password, salt), now).fullName == ""
    ensures NewUser(id, " ", " ", h.generate(password, salt), now).email == ""
  {
    Text.StripEmptyIff(" ");
  }
}
