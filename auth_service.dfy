/** `AuthService`: registration, login and current-user lookup over the table of encrypted
    users. Emails are normalised with `ToLowerInvariant`, encrypted with the deterministic
    cipher, and looked up by equality on the ciphertext. */
module Auth {
  import opened Wrappers
  import opened Seqs
  import opened Text
  import opened Guids
  import opened Times
  import opened Encryption
  import opened Users
  import opened Jwt

  /** `PasswordVerificationResult`: `Failed`, `Success` and `SuccessRehashNeeded`. */
  datatype PasswordVerificationResult = Failed | Verified | VerifiedRehashNeeded

  /** ASP.NET Identity's `PasswordHasher<string>`: `hashPassword(user, password, salt)` is
      `HashPassword` with the random salt it draws made a parameter, and `verifyHashedPassword`
      is `VerifyHashedPassword` for a non-null hash. */
  datatype PasswordHasher = PasswordHasher(
    hashPassword: (string, string, seq<Byte>) -> string,
    verifyHashedPassword: (string, string, string) -> PasswordVerificationResult)
  {
    /** A hash made for a password verifies that password. */
    ghost predicate Lawful()
    {
      forall user, password, salt {:trigger hashPassword(user, password, salt)} ::
        verifyHashedPassword(user, hashPassword(user, password, salt), password) != Failed
    }
  }

  /** The "Jwt:Key", "Jwt:Issuer" and "Jwt:Audience" configuration entries; any may be missing. */
  datatype JwtConfig = JwtConfig(key: Option<string>, issuer: Option<string>, audience: Option<string>)

  const TokenLifetimeHours: int := 24
  /** The identifier of the library's message for a zero-length signing key. */
  const EmptyKeyMessage := "IDX10703"

  /** What the service is constructed with, besides the user table. */
  datatype AuthEnv = AuthEnv(encryption: EncryptionService, hasher: PasswordHasher, config: JwtConfig, tokens: JwtHandler)
  {
    ghost predicate Lawful()
    {
      encryption.Valid() && encryption.aes.Lawful() && hasher.Lawful() && tokens.Lawful()
    }
  }

  /** The result of an operation and the user table after it. */
  datatype Outcome<T> = Outcome(result: Result<T>, users: seq<EncryptedUserModel>)

  /** No two stored users share an encrypted email. */
  ghost predicate UniqueEmails(users: seq<EncryptedUserModel>)
  {
    forall i, j :: 0 <= i < j < |users| ==> users[i].encryptedEmail != users[j].encryptedEmail
  }

  /** No two stored users share an id (the table's primary key). */
  ghost predicate UniqueIds(users: seq<EncryptedUserModel>)
  {
    forall i, j :: 0 <= i < j < |users| ==> users[i].id != users[j].id
  }

  /** `Users.Where(u => u.EncryptedEmail == encryptedEmail).FirstOrDefault()`, as a row index. */
  function FindByEmail(users: seq<EncryptedUserModel>, encryptedEmail: string): (r: Option<nat>)
    ensures r.Some? ==> r.value < |users| && users[r.value].encryptedEmail == encryptedEmail
    ensures r.Some? ==> forall j :: 0 <= j < r.value ==> users[j].encryptedEmail != encryptedEmail
    ensures r.None? <==> forall j :: 0 <= j < |users| ==> users[j].encryptedEmail != encryptedEmail
  {
    FirstIndex(users, (u: EncryptedUserModel) => u.encryptedEmail == encryptedEmail)
  }

  /** `Users.FindAsync(id)`, as a row index. */
  function FindById(users: seq<EncryptedUserModel>, id: Guid): (r: Option<nat>)
    ensures r.Some? ==> r.value < |users| && users[r.value].id == id
    ensures r.None? <==> forall j :: 0 <= j < |users| ==> users[j].id != id
  {
    FirstIndex(users, (u: EncryptedUserModel) => u.id == id)
  }

  /** The claims of the token issued to `user`, in the order they are listed. */
  function UserClaims(user: UserModel): (r: seq<Claim>)
    ensures |r| == 6 && r[0] == Claim(NameIdentifierClaim, Format(user.id))
    ensures r[1] == Claim(NameClaim, user.name) && r[2] == Claim(EmailClaim, user.email)
  {
    [ Claim(NameIdentifierClaim, Format(user.id)),
      Claim(NameClaim, user.name),
      Claim(EmailClaim, user.email),
      Claim("CreatedAt", FormatRoundTrip(user.createdAt)),
      Claim("LastLoginAt", if user.lastLoginAt.Some? then FormatRoundTrip(user.lastLoginAt.value) else ""),
      Claim("ProfilePictureUrl", user.profilePictureUrl.GetOr("")) ]
  }

  /** `GenerateJwt`: a missing "Jwt:Key" throws `ArgumentNullException`, an empty one
      `ArgumentException`; an expiry past `DateTime.MaxValue` throws `ArgumentOutOfRangeException`.
      Otherwise the token names the user by id, name and email and expires 24 hours after `now`. */
  function GenerateJwt(config: JwtConfig, user: UserModel, now: DateTime): (r: Result<JwtSecurityToken>)
    ensures config.key.None? ==> r == Failure(ArgumentNullException)
    ensures config.key == Some("") ==> r == Failure(ArgumentException(EmptyKeyMessage))
    ensures r.Success? <==> config.key.Some? && config.key.value != "" && now + TokenLifetimeHours * TicksPerHour <= MaxTicks
    ensures r.Failure? && config.key.Some? && config.key.value != "" ==> r.error == ArgumentOutOfRangeException
    ensures r.Success? ==>
      && r.value.issuer == config.issuer && r.value.audience == config.audience
      && r.value.expires == ToUnixSeconds(now + TokenLifetimeHours * TicksPerHour)
      && r.value.claims == UserClaims(user)
  {
    if config.key.None? then Failure(ArgumentNullException)
    else if config.key.value == "" then Failure(ArgumentException(EmptyKeyMessage))
    else
      var expires :- AddHours(now, TokenLifetimeHours);
      Success(JwtSecurityToken(config.issuer, config.audience, UserClaims(user), ToUnixSeconds(expires)))
  }

  /** The first NameIdentifier claim of a token names the user it was issued to, by an id
      that parses back; the Name and Email claims carry the user's name and email. */
  lemma TokenIdentifiesUser(user: UserModel)
    ensures FirstIndex(UserClaims(user), IsNameIdentifier) == Some(0)
    ensures Parse(UserClaims(user)[0].value) == Success(user.id)
    ensures UserClaims(user)[1] == Claim(NameClaim, user.name)
    ensures UserClaims(user)[2] == Claim(EmailClaim, user.email)
  {
    HeadFound(UserClaims(user), IsNameIdentifier);
    ParseFormat(user.id);
  }

  /** `LoginAsync` as a function of the table: the new table and the token, or null for an
      unknown email or a wrong password. */
  function Login(env: AuthEnv, users: seq<EncryptedUserModel>, email: string, password: string, now: DateTime)
    : (r: Outcome<Option<string>>)
    ensures |r.users| == |users|
    ensures r.users != users ==> r.result.Success? && r.result.value.Some?
    ensures r.result.Success? && r.result.value.Some? ==>
      FindByEmail(users, Encrypt(env.encryption, ToLowerInvariant(email))).Some?
  {
    var normalized := ToLowerInvariant(email);
    match FindByEmail(users, Encrypt(env.encryption, normalized))
    case None => Outcome(Success(None), users)
    case Some(i) =>
      var user := users[i];
      if user.passwordHash.None? then Outcome(Failure(ArgumentNullException), users)
      else if env.hasher.verifyHashedPassword(normalized, user.passwordHash.value, password) == Failed then
        Outcome(Success(None), users)
      else
        match user.Decrypt(env.encryption)
        case Failure(e) => Outcome(Failure(e), users)
        case Success(decrypted) =>
          match GenerateJwt(env.config, decrypted, now)
          case Failure(e) => Outcome(Failure(e), users)
          case Success(jwt) =>
            Outcome(Success(Some(env.tokens.write(jwt))), users[i := user.(lastLoginAt := Some(now))])
  }

  /** The new user `RegisterAsync` builds: lower-case name and email, the display name as given,
      active, never logged in, no picture and no bio. */
  function NewUser(email: string, username: string, newId: Guid, now: DateTime): (r: UserModel)
    ensures r.id == newId && r.createdAt == now && r.displayName == username
    ensures SameIgnoringCase(r.email, email) && ToLowerInvariant(r.email) == r.email
    ensures SameIgnoringCase(r.name, username) && ToLowerInvariant(r.name) == r.name
    ensures r.isActive && r.lastLoginAt.None?
    ensures r.profilePictureUrl.None? && r.bio.None?
  {
    ToLowerInvariantIdempotent(email);
    ToLowerInvariantIdempotent(username);
    UserModel(
      id := newId,
      name := ToLowerInvariant(username),
      email := ToLowerInvariant(email),
      displayName := username,
      createdAt := now,
      lastLoginAt := None,
      isActive := true,
      profilePictureUrl := None,
      bio := None)
  }

  /** `RegisterAsync` as a function of the table: null for an email already taken, otherwise the
      plaintext user, with its encrypted form appended. A clash on the fresh id is refused by the
      database's primary key. */
  function Register(env: AuthEnv, users: seq<EncryptedUserModel>, email: string, username: string, password: string,
                    newId: Guid, now: DateTime, salt: seq<Byte>): (r: Outcome<Option<UserModel>>)
    ensures r.users != users ==>
      && r.result == Success(Some(NewUser(email, username, newId, now)))
      && |r.users| == |users| + 1 && r.users[..|users|] == users
    ensures r.result.Success? && r.result.value.Some? ==> r.users != users
  {
    var normalized := ToLowerInvariant(email);
    if FindByEmail(users, Encrypt(env.encryption, normalized)).Some? then Outcome(Success(None), users)
    else
      var newUser := NewUser(email, username, newId, now);
      var encryptedUser := newUser.Encrypt(env.encryption)
        .(passwordHash := Some(env.hasher.hashPassword(normalized, password, salt)));
      if FindById(users, newId).Some? then Outcome(Failure(DbUpdateException), users)
      else Outcome(Success(Some(newUser)), users + [encryptedUser])
  }

  /** `GetCurrentUserAsync`: reads the token's claims without checking its signature, issuer,
      audience or expiry, and returns the stored user its first NameIdentifier claim names.
      It returns null for a null or empty token, a token without that claim, or an unknown id;
      unreadable text throws `SecurityTokenMalformedException` and an id claim that is not a
      Guid throws `FormatException`. */
  function GetCurrentUser(env: AuthEnv, users: seq<EncryptedUserModel>, token: Option<string>)
    : (r: Result<Option<UserModel>>)
    ensures IsNullOrEmpty(token) ==> r == Success(None)
    ensures !IsNullOrEmpty(token) && env.tokens.read(token.value).None? ==> r == Failure(SecurityTokenMalformedException)
    ensures !IsNullOrEmpty(token) && env.tokens.read(token.value).Some? ==>
      var claims := env.tokens.read(token.value).value.claims;
      match FirstIndex(claims, IsNameIdentifier)
      case None => r == Success(None)
      case Some(k) =>
        match Parse(claims[k].value)
        case Failure(_) => r == Failure(FormatException)
        case Success(id) =>
          && (FindById(users, id).None? ==> r == Success(None))
          && (FindById(users, id).Some? ==>
                var row := users[FindById(users, id).value];
                && (r.Success? <==> row.Decrypt(env.encryption).Success?)
                && (r.Success? ==> r.value == Some(row.Decrypt(env.encryption).value)))
    ensures r.Success? && r.value.Some? ==>
      exists i :: 0 <= i < |users| && users[i].Decrypt(env.encryption) == Success(r.value.value)
  {
    if IsNullOrEmpty(token) then Success(None)
    else
      match env.tokens.read(token.value)
      case None => Failure(SecurityTokenMalformedException)
      case Some(jwt) =>
        match FirstIndex(jwt.claims, IsNameIdentifier)
        case None => Success(None)
        case Some(k) =>
          var userId :- Parse(jwt.claims[k].value);
          match FindById(users, userId)
          case None => Success(None)
          case Some(i) =>
            var user :- users[i].Decrypt(env.encryption);
            Success(Some(user))
  }

  /** The service: its collaborators are fixed at construction; `users` is the table it
      reads and writes. */
  class AuthService {
    const encryptionService: EncryptionService
    const hasher: PasswordHasher
    const config: JwtConfig
    const tokenHandler: JwtHandler
    var users: seq<EncryptedUserModel>

    constructor (users: seq<EncryptedUserModel>, encryptionService: EncryptionService, config: JwtConfig,
                 hasher: PasswordHasher, tokenHandler: JwtHandler)
      ensures this.users == users && Env() == AuthEnv(encryptionService, hasher, config, tokenHandler)
    {
      this.users := users;
      this.encryptionService := encryptionService;
      this.hasher := hasher;
      this.config := config;
      this.tokenHandler := tokenHandler;
    }

    function Env(): AuthEnv
    {
      AuthEnv(encryptionService, hasher, config, tokenHandler)
    }

    /** Looks the user up by encrypted lower-case email, verifies the password with the
        lower-case email as the hasher's user, issues a token and stamps `LastLoginAt`. */
    method LoginAsync(email: string, password: string, now: DateTime) returns (token: Result<Option<string>>)
      modifies this
      ensures token == Login(Env(), old(users), email, password, now).result
      ensures users == Login(Env(), old(users), email, password, now).users
    {
      var encryptedEmail := Encrypt(encryptionService, ToLowerInvariant(email));
      var found := FindByEmail(users, encryptedEmail);
      if found.None? {
        return Success(None);
      }
      var i := found.value;
      var user := users[i];
      if user.passwordHash.None? {
        return Failure(ArgumentNullException);
      }
      if hasher.verifyHashedPassword(ToLowerInvariant(email), user.passwordHash.value, password) == Failed {
        return Success(None);
      }
      var decryptedUser :- user.Decrypt(encryptionService);
      var jwt :- GenerateJwt(config, decryptedUser, now);
      user := user.(lastLoginAt := Some(now));
      users := users[i := user];
      token := Success(Some(tokenHandler.write(jwt)));
    }

    /** Refuses an email already taken; otherwise stores the encrypted new user with the hash
        of the password and returns the plaintext user. */
    method RegisterAsync(email: string, username: string, password: string, newId: Guid, now: DateTime, salt: seq<Byte>)
      returns (user: Result<Option<UserModel>>)
      modifies this
      ensures user == Register(Env(), old(users), email, username, password, newId, now, salt).result
      ensures users == Register(Env(), old(users), email, username, password, newId, now, salt).users
    {
      var encryptedEmail := Encrypt(encryptionService, ToLowerInvariant(email));
      var existingUser := FindByEmail(users, encryptedEmail);
      if existingUser.Some? {
        return Success(None);
      }
      var newUser := NewUser(email, username, newId, now);
      var encryptedUser := newUser.Encrypt(encryptionService);
      encryptedUser := encryptedUser.(passwordHash := Some(hasher.hashPassword(ToLowerInvariant(email), password, salt)));
      if FindById(users, newId).Some? {
        return Failure(DbUpdateException);
      }
      users := users + [encryptedUser];
      user := Success(Some(newUser));
    }

    /** Reads the user named by the token; changes nothing. */
    method GetCurrentUserAsync(token: Option<string>) returns (user: Result<Option<UserModel>>)
      ensures user == GetCurrentUser(Env(), users, token)
    {
      if IsNullOrEmpty(token) {
        return Success(None);
      }
      var jwtToken := tokenHandler.read(token.value);
      if jwtToken.None? {
        return Failure(SecurityTokenMalformedException);
      }
      var userIdClaim := FirstIndex(jwtToken.value.claims, IsNameIdentifier);
      if userIdClaim.None? {
        return Success(None);
      }
      var userId :- Parse(jwtToken.value.claims[userIdClaim.value].value);
      var found := FindById(users, userId);
      if found.None? {
        return Success(None);
      }
      var decrypted :- users[found.value].Decrypt(encryptionService);
      user := Success(Some(decrypted));
    }
  }
}
