/**
 * The handlers of src/controller/user-auth.controller.js over an in-memory `users` table:
 * registration, login with an access and a refresh token, the one-time-password pair, the
 * refresh endpoint, and lookup, update and deletion by key. Password hashing, the bcrypt
 * comparison, token signing and verification and the TOTP generator are parameters.
 */
module Users {
  import opened Wrappers
  import opened Http
  import opened Body
  import opened Validation
  import Query
  import Tables
  import Regions
  import ColumnLimits
  import opened RoleGuard

  /** A row of the `users` table. The schema's `location` has no column and is not stored. */
  datatype User = User(
    id: Uuid, name: string, year: int, phone: string, email: string,
    regionId: int, password: string, image: string, role: string)

  function IdOf(u: User): Uuid {
    u.id
  }

  function EmailOf(u: User): string {
    u.email
  }

  function PhoneOf(u: User): string {
    u.phone
  }

  function NameOf(u: User): string {
    u.name
  }

  /** The `users` table: its rows in insertion order, keyed by their UUID. */
  class UserTable {
    var rows: seq<User>

    ghost predicate Valid()
      reads this
    {
      Tables.UniqueIds(rows, IdOf)
    }

    constructor ()
      ensures Valid() && rows == []
    {
      rows := [];
    }
  }

  const NotFound: string := "User not found"
  const DuplicateKey: string := "Validation error"

  // ---------------------------------------------------------------------------
  // Tokens
  // ---------------------------------------------------------------------------

  /** The two signing keys: `JWT_SECRET` for access tokens, `JWT_REFRESH_SECRET` for refresh tokens. */
  datatype Secret = AccessSecret | RefreshSecret

  /** A signed token: its payload and the key it was signed with. Expiry is not modelled. */
  datatype Token = Token(claims: Claims, secret: Secret)

  /**
   * What `genToken` and `genRefreshToken` are called with: an object with (possibly absent)
   * `id` and `role`, some other defined value such as a string, or `undefined`.
   */
  datatype Subject = Record(id: Option<Uuid>, role: Option<string>) | Text(s: string) | Undefined

  /** `{ id: user.id, role: user.role }`: a string has neither property, `undefined` throws. */
  function Payload(x: Subject): (c: Option<Claims>)
    ensures c.None? <==> x.Undefined?
    ensures x.Record? ==> c == Some(Claims(x.id, x.role))
    ensures x.Text? ==> c == Some(Claims(None, None))
  {
    match x
    case Record(id, role) => Some(Claims(id, role))
    case Text(_) => Some(Claims(None, None))
    case Undefined => None
  }

  /** `genToken(x)`, or `None` when building the payload throws. */
  function GenToken(x: Subject): (t: Option<Token>)
    ensures t.None? <==> x.Undefined?
    ensures t.Some? ==> t.value == Token(Payload(x).value, AccessSecret)
  {
    if x.Undefined? then None else Some(Token(Payload(x).value, AccessSecret))
  }

  /** `genRefreshToken(x)`, or `None` when building the payload throws. */
  function GenRefreshToken(x: Subject): (t: Option<Token>)
    ensures t.None? <==> x.Undefined?
    ensures t.Some? ==> t.value == Token(Payload(x).value, RefreshSecret)
  {
    if x.Undefined? then None else Some(Token(Payload(x).value, RefreshSecret))
  }

  /** A user row as the object handed to the token functions. */
  function SubjectOf(u: User): Subject {
    Record(Some(u.id), Some(u.role))
  }

  /** Both tokens of a user carry exactly its `id` and `role`, under different keys. */
  lemma TokensOfUser(u: User)
    ensures GenToken(SubjectOf(u)) == Some(Token(Claims(Some(u.id), Some(u.role)), AccessSecret))
    ensures GenRefreshToken(SubjectOf(u)) == Some(Token(Claims(Some(u.id), Some(u.role)), RefreshSecret))
    ensures GenToken(SubjectOf(u)).value != GenRefreshToken(SubjectOf(u)).value
  {
  }

  /** Token verification that gives back the payload of every token signed with `key`. */
  predicate SignedFor(key: Secret, sign: Token -> string, verify: string -> Option<Claims>, t: Token) {
    t.secret == key ==> sign(t) != [] && ' ' !in sign(t) && verify(sign(t)) == Some(t.claims)
  }

  // ---------------------------------------------------------------------------
  // register: POST "/register" of the user router
  // ---------------------------------------------------------------------------

  const ValidatorName: string := "userValidationSchema"
  const EmailExists: string := "Email already exists"
  const PhoneExists: string := "Phone already exists"
  const NameExists: string := "Username already exists. Please change your username.."
  const RegionNotFound: string := "region not found"

  /** The fields a valid body supplies, with the types the schema demands. */
  predicate Supplies(b: Body) {
    && "name" in b && b["name"].Str? && "year" in b && IsInteger(b["year"])
    && "phone" in b && b["phone"].Str? && "email" in b && b["email"].Str?
    && "region_id" in b && IsInteger(b["region_id"]) && "password" in b && b["password"].Str?
    && "image" in b && b["image"].Str? && "role" in b && b["role"].Str?
  }

  lemma ValidSupplies(b: Body, f: Formats, currentYear: int)
    requires UserValid(b, f, currentYear)
    ensures Supplies(b)
  {
  }

  predicate EmailTaken(rows: seq<User>, b: Body)
    requires Supplies(b)
  {
    Tables.HasId(rows, b["email"].s, EmailOf)
  }

  predicate PhoneTaken(rows: seq<User>, b: Body)
    requires Supplies(b)
  {
    Tables.HasId(rows, b["phone"].s, PhoneOf)
  }

  predicate NameTaken(rows: seq<User>, b: Body)
    requires Supplies(b)
  {
    Tables.HasId(rows, b["name"].s, NameOf)
  }

  /** `Region.findByPk(region_id)` finds a row. */
  predicate RegionExists(regions: seq<Regions.Region>, b: Body)
    requires Supplies(b)
  {
    var rid := IntOf(b["region_id"]);
    rid >= 0 && Tables.HasId(regions, rid as nat, Regions.IdOf)
  }

  /** The row `User.create` stores: the body's columns, with `password` replaced by its hash. */
  function NewUser(id: Uuid, b: Body, hash: string -> string): (u: User)
    requires Supplies(b)
    ensures u.id == id && u.password == hash(b["password"].s)
    ensures u.name == b["name"].s && u.email == b["email"].s && u.phone == b["phone"].s
    ensures u.year == IntOf(b["year"]) && u.regionId == IntOf(b["region_id"])
    ensures u.image == b["image"].s && u.role == b["role"].s
  {
    User(id, b["name"].s, IntOf(b["year"]), b["phone"].s, b["email"].s,
      IntOf(b["region_id"]), hash(b["password"].s), b["image"].s, b["role"].s)
  }

  /**
   * The values an INSERT or UPDATE of `u` binds to the limited columns, in table order. The
   * `role` ENUM takes only the four values the schema allows.
   */
  function ColumnsOf(u: User): (cs: seq<ColumnLimits.Column>)
    ensures ColumnLimits.AllFit(cs) <==>
      && |u.name| <= ColumnLimits.VarcharMax && |u.phone| <= ColumnLimits.VarcharMax
      && |u.email| <= ColumnLimits.VarcharMax && |u.password| <= ColumnLimits.VarcharMax
      && |u.image| <= ColumnLimits.VarcharMax
      && ColumnLimits.IntMin <= u.year <= ColumnLimits.IntMax && ColumnLimits.IntMin <= u.regionId <= ColumnLimits.IntMax
  {
    var cs := [ColumnLimits.Varchar("name", u.name), ColumnLimits.Int("year", u.year), ColumnLimits.Varchar("phone", u.phone),
               ColumnLimits.Varchar("email", u.email), ColumnLimits.Int("region_id", u.regionId),
               ColumnLimits.Varchar("password", u.password), ColumnLimits.Varchar("image", u.image)];
    assert ColumnLimits.Fits(cs[0]) && ColumnLimits.Fits(cs[1]) && ColumnLimits.Fits(cs[2]) && ColumnLimits.Fits(cs[3])
      && ColumnLimits.Fits(cs[4]) && ColumnLimits.Fits(cs[5]) && ColumnLimits.Fits(cs[6])
      ==> ColumnLimits.AllFit(cs);
    cs
  }

  /** The role a registering client puts in the body is the role every later token of the user carries. */
  lemma RegisteredRoleIsTokenRole(id: Uuid, b: Body, hash: string -> string)
    requires Supplies(b)
    ensures GenToken(SubjectOf(NewUser(id, b, hash))).value.claims == Claims(Some(id), Some(b["role"].s))
    ensures GenRefreshToken(SubjectOf(NewUser(id, b, hash))).value.claims == Claims(Some(id), Some(b["role"].s))
  {
  }

  /**
   * `register` with `userValidationSchema` bound to `v`: validate, refuse a taken email,
   * phone or name in that order, refuse an unknown region, then store the new row, unless
   * MySQL refuses a value its column cannot hold.
   */
  method RegisterWith(t: UserTable, regions: Regions.RegionTable, b: Body, f: Formats, currentYear: int,
                      v: Binding, newId: Uuid, hash: string -> string) returns (r: Reply<User>)
    requires t.Valid() && (v == Unbound || v == UserModuleExport)
    modifies t
    ensures t.Valid()
    ensures v == Unbound ==> r == Fail(500, ValidatorName + " is not defined") && unchanged(t)
    ensures v == UserModuleExport && !UserValid(b, f, currentYear) ==> r == Fail(400, ValidationFailed) && unchanged(t)
    ensures v == UserModuleExport && UserValid(b, f, currentYear) ==>
      && (EmailTaken(old(t.rows), b) ==> r == Fail(400, EmailExists) && unchanged(t))
      && (!EmailTaken(old(t.rows), b) && PhoneTaken(old(t.rows), b) ==> r == Fail(400, PhoneExists) && unchanged(t))
      && (!EmailTaken(old(t.rows), b) && !PhoneTaken(old(t.rows), b) && NameTaken(old(t.rows), b) ==>
            r == Fail(400, NameExists) && unchanged(t))
    ensures v == UserModuleExport && UserValid(b, f, currentYear) &&
            !EmailTaken(old(t.rows), b) && !PhoneTaken(old(t.rows), b) && !NameTaken(old(t.rows), b) ==>
      && (!RegionExists(regions.rows, b) ==> r == Fail(404, RegionNotFound) && unchanged(t))
      && (RegionExists(regions.rows, b) && !ColumnLimits.AllFit(ColumnsOf(NewUser(newId, b, hash))) ==>
            r == Fail(500, ColumnLimits.FirstRefusal(ColumnsOf(NewUser(newId, b, hash))).value) && unchanged(t))
      && (RegionExists(regions.rows, b) && ColumnLimits.AllFit(ColumnsOf(NewUser(newId, b, hash))) &&
          Tables.HasId(old(t.rows), newId, IdOf) ==>
            r == Fail(500, DuplicateKey) && unchanged(t))
      && (RegionExists(regions.rows, b) && ColumnLimits.AllFit(ColumnsOf(NewUser(newId, b, hash))) &&
          !Tables.HasId(old(t.rows), newId, IdOf) ==>
            && r == Ok(200, NewUser(newId, b, hash))
            && t.rows == old(t.rows) + [r.value])
  {
    var check := CallValidate(ValidatorName, v, b, f, currentYear);
    if check.Threw? {
      return Fail(500, check.message);
    }
    if check.Rejected? {
      return Fail(400, ValidationFailed);
    }
    ValidSupplies(b, f, currentYear);
    if Tables.Lookup(t.rows, b["email"].s, EmailOf).Some? {
      return Fail(400, EmailExists);
    }
    if Tables.Lookup(t.rows, b["phone"].s, PhoneOf).Some? {
      return Fail(400, PhoneExists);
    }
    if Tables.Lookup(t.rows, b["name"].s, NameOf).Some? {
      return Fail(400, NameExists);
    }
    var rid := IntOf(b["region_id"]);
    if rid < 0 || Tables.Lookup(regions.rows, rid as nat, Regions.IdOf).None? {
      return Fail(404, RegionNotFound);
    }
    var u := NewUser(newId, b, hash);
    var refused := ColumnLimits.FirstRefusal(ColumnsOf(u));
    if refused.Some? {
      return Fail(500, refused.value);
    }
    if Tables.Lookup(t.rows, newId, IdOf).Some? {
      return Fail(500, DuplicateKey);
    }
    Tables.AppendFreshUnique(t.rows, u, IdOf);
    t.rows := t.rows + [u];
    r := Ok(200, u);
  }

  /** `register` as written: the schema's `require` is commented out, so every call is a 500. */
  method RegisterAsWritten(t: UserTable, regions: Regions.RegionTable, b: Body, f: Formats, currentYear: int,
                           newId: Uuid, hash: string -> string) returns (r: Reply<User>)
    requires t.Valid()
    modifies t
    ensures t.Valid()
    ensures r == Fail(500, "userValidationSchema is not defined") && unchanged(t)
  {
    r := RegisterWith(t, regions, b, f, currentYear, Unbound, newId, hash);
  }

  /** `register` with the schema imported: the checks in order, then the new row. */
  method Register(t: UserTable, regions: Regions.RegionTable, b: Body, f: Formats, currentYear: int,
                  newId: Uuid, hash: string -> string) returns (r: Reply<User>)
    requires t.Valid()
    modifies t
    ensures t.Valid()
    ensures !UserValid(b, f, currentYear) ==> r == Fail(400, ValidationFailed) && unchanged(t)
    ensures UserValid(b, f, currentYear) ==>
      && (EmailTaken(old(t.rows), b) ==> r == Fail(400, EmailExists) && unchanged(t))
      && (!EmailTaken(old(t.rows), b) && PhoneTaken(old(t.rows), b) ==> r == Fail(400, PhoneExists) && unchanged(t))
      && (!EmailTaken(old(t.rows), b) && !PhoneTaken(old(t.rows), b) && NameTaken(old(t.rows), b) ==>
            r == Fail(400, NameExists) && unchanged(t))
    ensures UserValid(b, f, currentYear) &&
            !EmailTaken(old(t.rows), b) && !PhoneTaken(old(t.rows), b) && !NameTaken(old(t.rows), b) ==>
      && (!RegionExists(regions.rows, b) ==> r == Fail(404, RegionNotFound) && unchanged(t))
      && (RegionExists(regions.rows, b) && !ColumnLimits.AllFit(ColumnsOf(NewUser(newId, b, hash))) ==>
            r == Fail(500, ColumnLimits.FirstRefusal(ColumnsOf(NewUser(newId, b, hash))).value) && unchanged(t))
      && (RegionExists(regions.rows, b) && ColumnLimits.AllFit(ColumnsOf(NewUser(newId, b, hash))) &&
          Tables.HasId(old(t.rows), newId, IdOf) ==>
            r == Fail(500, DuplicateKey) && unchanged(t))
      && (RegionExists(regions.rows, b) && ColumnLimits.AllFit(ColumnsOf(NewUser(newId, b, hash))) &&
          !Tables.HasId(old(t.rows), newId, IdOf) ==>
            && r == Ok(200, NewUser(newId, b, hash))
            && t.rows == old(t.rows) + [r.value])
  {
    r := RegisterWith(t, regions, b, f, currentYear, UserModuleExport, newId, hash);
  }

  /** Registration never stores a second row with an email, phone or name already taken. */
  lemma RegisteredFieldsAreFresh(rows: seq<User>, regions: seq<Regions.Region>, b: Body, newId: Uuid, hash: string -> string)
    requires Supplies(b) && !EmailTaken(rows, b) && !PhoneTaken(rows, b) && !NameTaken(rows, b)
    ensures forall u :: u in rows ==>
      u.email != NewUser(newId, b, hash).email && u.phone != NewUser(newId, b, hash).phone &&
      u.name != NewUser(newId, b, hash).name
  {
    forall u | u in rows
      ensures u.email != b["email"].s && u.phone != b["phone"].s && u.name != b["name"].s
    {
      var k :| 0 <= k < |rows| && rows[k] == u;
      assert EmailOf(rows[k]) == u.email && PhoneOf(rows[k]) == u.phone && NameOf(rows[k]) == u.name;
    }
  }

  // ---------------------------------------------------------------------------
  // login: POST "/login" of the user router
  // ---------------------------------------------------------------------------

  const MissingCredentials: string := "username va password kiriting!..."
  const UnknownUser: string := "user not found"
  const WrongPassword: string := "Invalid password"

  datatype TokenPair = TokenPair(access: Token, refresh: Token)

  /**
   * `login`: both `name` and `password` must be non-empty; the user is found by name and
   * the password checked against the stored hash with `compare(password, hash)`.
   */
  method Login(t: UserTable, name: Option<string>, password: Option<string>,
               compare: (string, string) -> bool) returns (r: Reply<TokenPair>)
    ensures !Query.Given(name) || !Query.Given(password) ==> r == Fail(400, MissingCredentials)
    ensures Query.Given(name) && Query.Given(password) && !Tables.HasId(t.rows, name.value, NameOf) ==>
      r == Fail(400, UnknownUser)
    ensures Query.Given(name) && Query.Given(password) && Tables.HasId(t.rows, name.value, NameOf) ==>
      var u := Tables.Lookup(t.rows, name.value, NameOf).value;
      && (!compare(password.value, u.password) ==> r == Fail(400, WrongPassword))
      && (compare(password.value, u.password) ==>
            r == Ok(200, TokenPair(Token(Claims(Some(u.id), Some(u.role)), AccessSecret),
                                   Token(Claims(Some(u.id), Some(u.role)), RefreshSecret))))
    ensures r.Ok? ==>
      exists u :: u in t.rows && u.name == name.value && compare(password.value, u.password) &&
                  r.value.access.claims == Claims(Some(u.id), Some(u.role))
  {
    if !Query.Given(name) || !Query.Given(password) {
      return Fail(400, MissingCredentials);
    }
    var found := Tables.Lookup(t.rows, name.value, NameOf);
    if found.None? {
      return Fail(400, UnknownUser);
    }
    var u := found.value;
    if !compare(password.value, u.password) {
      return Fail(400, WrongPassword);
    }
    var access := GenToken(SubjectOf(u));
    var refresh := GenRefreshToken(SubjectOf(u));
    r := Ok(200, TokenPair(access.value, refresh.value));
  }

  /** The access token a login hands out passes a guard exactly when the user's role is listed. */
  lemma LoginTokenPassesGuard(u: User, roles: seq<string>, sign: Token -> string, verify: string -> Option<Claims>)
    requires SignedFor(AccessSecret, sign, verify, GenToken(SubjectOf(u)).value)
    ensures var d := Decide(roles, Some("Bearer " + sign(GenToken(SubjectOf(u)).value)), verify);
      && (u.role in roles ==> d == Allow(Claims(Some(u.id), Some(u.role))))
      && (u.role !in roles ==> d == NotAllowed)
  {
    BearerOfToken(sign(GenToken(SubjectOf(u)).value));
  }

  // ---------------------------------------------------------------------------
  // sendOtp (POST "/send-otp") and verify (POST "/verify-otp") of the user router
  // ---------------------------------------------------------------------------

  const OtpSent: string := "Email pochtangizga va telefon raqamingizga parol yuborildi.\n"
  const UserExists: string := "User already exists"

  /**
   * `sendOtp`: refuse an email or phone already registered, otherwise generate the code for
   * `email + TOTP_SECRET` and answer with it (the e-mail itself is not modelled).
   */
  method SendOtp(t: UserTable, email: string, phone: string, generate: string -> string, otpSecret: string)
    returns (r: Reply<string>)
    ensures Tables.HasId(t.rows, email, EmailOf) ==> r == Fail(409, EmailExists)
    ensures !Tables.HasId(t.rows, email, EmailOf) && Tables.HasId(t.rows, phone, PhoneOf) ==> r == Fail(409, PhoneExists)
    ensures !Tables.HasId(t.rows, email, EmailOf) && !Tables.HasId(t.rows, phone, PhoneOf) ==>
      r == Ok(200, OtpSent + generate(email + otpSecret))
  {
    if Tables.Lookup(t.rows, email, EmailOf).Some? {
      return Fail(409, EmailExists);
    }
    if Tables.Lookup(t.rows, phone, PhoneOf).Some? {
      return Fail(409, PhoneExists);
    }
    var code := generate(email + otpSecret);
    r := Ok(200, OtpSent + code);
  }

  /**
   * `verify`: refuse an email already registered, whatever the code; otherwise answer whether
   * `otp` is the current code for `email + TOTP_SECRET`.
   */
  method VerifyOtp(t: UserTable, email: string, otp: string, check: (string, string) -> bool, otpSecret: string)
    returns (r: Reply<bool>)
    ensures Tables.HasId(t.rows, email, EmailOf) ==> r == Fail(409, UserExists)
    ensures !Tables.HasId(t.rows, email, EmailOf) ==> r == Ok(200, check(otp, email + otpSecret))
  {
    if Tables.Lookup(t.rows, email, EmailOf).Some? {
      return Fail(409, UserExists);
    }
    r := Ok(200, check(otp, email + otpSecret));
  }

  /**
   * `sendOtp` followed by `verify` on the same table, with the code the first answer carries:
   * whenever a code was sent, `verify` accepts it, provided the checker accepts every code the
   * generator produces for a key.
   */
  method SentCodeVerifies(t: UserTable, email: string, phone: string, generate: string -> string,
                          check: (string, string) -> bool, otpSecret: string)
    returns (sent: Reply<string>, verdict: Option<Reply<bool>>)
    requires forall key :: check(generate(key), key)
    ensures sent.Ok? <==> !Tables.HasId(t.rows, email, EmailOf) && !Tables.HasId(t.rows, phone, PhoneOf)
    ensures verdict.Some? <==> sent.Ok?
    ensures verdict.Some? ==> verdict.value == Ok(200, true)
  {
    sent := SendOtp(t, email, phone, generate, otpSecret);
    if sent.Fail? {
      return sent, None;
    }
    var code := sent.value[|OtpSent|..];
    assert code == generate(email + otpSecret);
    var answer := VerifyOtp(t, email, code, check, otpSecret);
    verdict := Some(answer);
  }

  // ---------------------------------------------------------------------------
  // refresh: POST "/refresh" of the user router
  // ---------------------------------------------------------------------------

  const NoRefreshToken: string := "refresh_token not provided"
  const InvalidRefresh: string := "Invalid refresh token"

  /** The `id` claim handed on to `genToken`: its string, or `undefined`. */
  function IdSubject(c: Claims): Subject {
    if c.id.Some? then Text(c.id.value) else Undefined
  }

  /**
   * `refresh` as written: `genToken(data.id)` signs a payload with neither `id` nor `role`,
   * or throws when the payload has no `id`. The catch answers with status 200.
   */
  function RefreshAsWritten(refreshToken: Option<string>, verifyRefresh: string -> Option<Claims>): (r: Reply<Token>)
    ensures !Query.Given(refreshToken) ==> r == Fail(400, NoRefreshToken)
    ensures Query.Given(refreshToken) && verifyRefresh(refreshToken.value).None? ==> r == Fail(200, InvalidRefresh)
    ensures r.Ok? <==> Query.Given(refreshToken) && verifyRefresh(refreshToken.value).Some? &&
                       verifyRefresh(refreshToken.value).value.id.Some?
    ensures r.Ok? ==> r.value == Token(Claims(None, None), AccessSecret)
  {
    if !Query.Given(refreshToken) then Fail(400, NoRefreshToken)
    else
      var data := verifyRefresh(refreshToken.value);
      if data.None? then Fail(200, InvalidRefresh)
      else
        var token := GenToken(IdSubject(data.value));
        if token.None? then Fail(200, InvalidRefresh) else Ok(200, token.value)
  }

  /** `refresh` signing a new access token with the verified payload's `id` and `role`. */
  function Refresh(refreshToken: Option<string>, verifyRefresh: string -> Option<Claims>): (r: Reply<Token>)
    ensures !Query.Given(refreshToken) ==> r == Fail(400, NoRefreshToken)
    ensures Query.Given(refreshToken) && verifyRefresh(refreshToken.value).None? ==> r == Fail(200, InvalidRefresh)
    ensures r.Ok? <==> Query.Given(refreshToken) && verifyRefresh(refreshToken.value).Some?
    ensures r.Ok? ==> r.value == Token(verifyRefresh(refreshToken.value).value, AccessSecret)
  {
    if !Query.Given(refreshToken) then Fail(400, NoRefreshToken)
    else
      var data := verifyRefresh(refreshToken.value);
      if data.None? then Fail(200, InvalidRefresh)
      else
        var token := GenToken(Record(data.value.id, data.value.role));
        Ok(200, token.value)
  }

  /** The token the endpoint hands out as written is refused by every role guard. */
  lemma AsWrittenRefreshedTokenIsRefused(refreshToken: Option<string>, verifyRefresh: string -> Option<Claims>,
                                         roles: seq<string>, sign: Token -> string, verify: string -> Option<Claims>)
    requires RefreshAsWritten(refreshToken, verifyRefresh).Ok?
    requires SignedFor(AccessSecret, sign, verify, RefreshAsWritten(refreshToken, verifyRefresh).value)
    ensures Decide(roles, Some("Bearer " + sign(RefreshAsWritten(refreshToken, verifyRefresh).value)), verify) == NotAllowed
  {
    BearerOfToken(sign(RefreshAsWritten(refreshToken, verifyRefresh).value));
  }

  /** After the correction, a refreshed token opens the same routes the refresh token's role did. */
  lemma RefreshedTokenKeepsAccess(refreshToken: Option<string>, verifyRefresh: string -> Option<Claims>,
                                  roles: seq<string>, sign: Token -> string, verify: string -> Option<Claims>)
    requires Refresh(refreshToken, verifyRefresh).Ok?
    requires SignedFor(AccessSecret, sign, verify, Refresh(refreshToken, verifyRefresh).value)
    ensures var data := verifyRefresh(refreshToken.value).value;
      Decide(roles, Some("Bearer " + sign(Refresh(refreshToken, verifyRefresh).value)), verify) ==
        if Includes(roles, data.role) then Allow(data) else NotAllowed
  {
    BearerOfToken(sign(Refresh(refreshToken, verifyRefresh).value));
  }

  // ---------------------------------------------------------------------------
  // getUserById (GET "/:id"), updateUser (PATCH "/:id") and deleteUser (DELETE "/:id") of the
  // user router
  // ---------------------------------------------------------------------------

  /** `getUserById`: the row with that key, or 404. */
  method GetUserById(t: UserTable, id: Uuid) returns (r: Reply<User>)
    ensures !Tables.HasId(t.rows, id, IdOf) ==> r == Fail(404, NotFound)
    ensures Tables.HasId(t.rows, id, IdOf) ==> r.Ok? && r.status == 200 && r.value in t.rows && r.value.id == id
  {
    var found := Tables.Lookup(t.rows, id, IdOf);
    if found.None? {
      return Fail(404, NotFound);
    }
    r := Ok(200, found.value);
  }

  /**
   * `user.update(req.body)`: every column the body names takes the body's value. The
   * password is stored as sent, without hashing; `location` has no column.
   */
  function Edited(u: User, b: Body): (e: User)
    requires Supplies(b)
    ensures e.id == u.id
    ensures e.password == b["password"].s
    ensures e.name == b["name"].s && e.email == b["email"].s && e.phone == b["phone"].s
    ensures e.year == IntOf(b["year"]) && e.regionId == IntOf(b["region_id"])
    ensures e.image == b["image"].s && e.role == b["role"].s
  {
    User(u.id, b["name"].s, IntOf(b["year"]), b["phone"].s, b["email"].s,
      IntOf(b["region_id"]), b["password"].s, b["image"].s, b["role"].s)
  }

  /**
   * `updateUser` with `userValidationSchema` bound to `v`: validate, then 404, then update,
   * unless MySQL refuses a value its column cannot hold.
   */
  method UpdateUserWith(t: UserTable, id: Uuid, b: Body, f: Formats, currentYear: int, v: Binding)
    returns (r: Reply<User>)
    requires t.Valid() && (v == Unbound || v == UserModuleExport)
    modifies t
    ensures t.Valid()
    ensures v == Unbound ==> r == Fail(500, ValidatorName + " is not defined") && unchanged(t)
    ensures v == UserModuleExport && !UserValid(b, f, currentYear) ==> r == Fail(400, ValidationFailed) && unchanged(t)
    ensures v == UserModuleExport && UserValid(b, f, currentYear) && !Tables.HasId(old(t.rows), id, IdOf) ==>
      r == Fail(404, NotFound) && unchanged(t)
    ensures v == UserModuleExport && UserValid(b, f, currentYear) && Tables.HasId(old(t.rows), id, IdOf) ==>
      var edited := Edited(Tables.Lookup(old(t.rows), id, IdOf).value, b);
      && (!ColumnLimits.AllFit(ColumnsOf(edited)) ==>
            r == Fail(500, ColumnLimits.FirstRefusal(ColumnsOf(edited)).value) && unchanged(t))
      && (ColumnLimits.AllFit(ColumnsOf(edited)) ==>
            r == Ok(200, edited) && t.rows == Tables.Replace(old(t.rows), id, IdOf, edited))
  {
    var check := CallValidate(ValidatorName, v, b, f, currentYear);
    if check.Threw? {
      return Fail(500, check.message);
    }
    if check.Rejected? {
      return Fail(400, ValidationFailed);
    }
    ValidSupplies(b, f, currentYear);
    var found := Tables.Lookup(t.rows, id, IdOf);
    if found.None? {
      return Fail(404, NotFound);
    }
    var u := Edited(found.value, b);
    var refused := ColumnLimits.FirstRefusal(ColumnsOf(u));
    if refused.Some? {
      return Fail(500, refused.value);
    }
    Tables.ReplaceKeepsUnique(t.rows, id, IdOf, u);
    t.rows := Tables.Replace(t.rows, id, IdOf, u);
    r := Ok(200, u);
  }

  /** `updateUser` as written: the schema is not in scope, so every call is a 500. */
  method UpdateUserAsWritten(t: UserTable, id: Uuid, b: Body, f: Formats, currentYear: int) returns (r: Reply<User>)
    requires t.Valid()
    modifies t
    ensures t.Valid()
    ensures r == Fail(500, "userValidationSchema is not defined") && unchanged(t)
  {
    r := UpdateUserWith(t, id, b, f, currentYear, Unbound);
  }

  /** `updateUser` with the schema imported. */
  method UpdateUser(t: UserTable, id: Uuid, b: Body, f: Formats, currentYear: int) returns (r: Reply<User>)
    requires t.Valid()
    modifies t
    ensures t.Valid()
    ensures !UserValid(b, f, currentYear) ==> r == Fail(400, ValidationFailed) && unchanged(t)
    ensures UserValid(b, f, currentYear) && !Tables.HasId(old(t.rows), id, IdOf) ==> r == Fail(404, NotFound) && unchanged(t)
    ensures UserValid(b, f, currentYear) && Tables.HasId(old(t.rows), id, IdOf) ==>
      var edited := Edited(Tables.Lookup(old(t.rows), id, IdOf).value, b);
      && (!ColumnLimits.AllFit(ColumnsOf(edited)) ==>
            r == Fail(500, ColumnLimits.FirstRefusal(ColumnsOf(edited)).value) && unchanged(t))
      && (ColumnLimits.AllFit(ColumnsOf(edited)) ==>
            r == Ok(200, edited) && t.rows == Tables.Replace(old(t.rows), id, IdOf, edited))
  {
    r := UpdateUserWith(t, id, b, f, currentYear, UserModuleExport);
  }

  /**
   * An update stores the password of the body as it is: the stored value is the plain
   * text, not `hash` of it, unless `hash` happens to fix that text.
   */
  lemma UpdateStoresPlainPassword(u: User, b: Body, hash: string -> string)
    requires Supplies(b) && hash(b["password"].s) != b["password"].s
    ensures Edited(u, b).password != NewUser(u.id, b, hash).password
  {
  }

  /** `deleteUser`: remove the row with that key, or 404. */
  method DeleteUser(t: UserTable, id: Uuid) returns (r: Reply<string>)
    requires t.Valid()
    modifies t
    ensures t.Valid()
    ensures !Tables.HasId(old(t.rows), id, IdOf) ==> r == Fail(404, NotFound) && unchanged(t)
    ensures Tables.HasId(old(t.rows), id, IdOf) ==>
      && r == Ok(200, "User deleted successfully")
      && t.rows == Tables.Remove(old(t.rows), id, IdOf)
      && |t.rows| == |old(t.rows)| - 1
  {
    if Tables.Lookup(t.rows, id, IdOf).None? {
      return Fail(404, NotFound);
    }
    Tables.RemoveKeepsUnique(t.rows, id, IdOf);
    Tables.RemoveOne(t.rows, id, IdOf);
    t.rows := Tables.Remove(t.rows, id, IdOf);
    r := Ok(200, "User deleted successfully");
  }
}
