/** What registration, login and current-user lookup guarantee, alone and in sequence. */
module AuthProperties {
  import opened Wrappers
  import opened Seqs
  import opened Text
  import opened Guids
  import opened Times
  import opened Encryption
  import opened Users
  import opened Jwt
  import opened Auth

  /** The encrypted lower-case form of an email: the key both login and registration look up. */
  function EmailKey(env: AuthEnv, email: string): string
  {
    Encrypt(env.encryption, ToLowerInvariant(email))
  }

  /** Login answers null when no stored user has the encrypted email, or when the hasher
      rejects the password for the user it finds; either way the table is unchanged. A call
      that throws leaves the table unchanged too. */
  lemma LoginRejects(env: AuthEnv, users: seq<EncryptedUserModel>, email: string, password: string, now: DateTime)
    ensures var o := Login(env, users, email, password, now);
      o.result == Success(None) <==>
        || FindByEmail(users, EmailKey(env, email)).None?
        || (var i := FindByEmail(users, EmailKey(env, email)).value;
            users[i].passwordHash.Some? &&
            env.hasher.verifyHashedPassword(ToLowerInvariant(email), users[i].passwordHash.value, password) == Failed)
    ensures var o := Login(env, users, email, password, now);
      (o.result.Failure? || o.result.value.None?) ==> o.users == users
  {
  }

  /** A successful login changes one record, the one found by email, and in that record only
      `LastLoginAt`, which becomes `now`. The token it returns reads back as the token issued to
      the decrypted user: NameIdentifier, Name and Email claims, expiry 24 hours after `now`. */
  lemma LoginSucceeds(env: AuthEnv, users: seq<EncryptedUserModel>, email: string, password: string, now: DateTime)
    requires env.tokens.Lawful()
    requires Login(env, users, email, password, now).result.Success?
    requires Login(env, users, email, password, now).result.value.Some?
    ensures FindByEmail(users, EmailKey(env, email)).Some?
    ensures var i := FindByEmail(users, EmailKey(env, email)).value;
      var o := Login(env, users, email, password, now);
      && o.users == users[i := users[i].(lastLoginAt := Some(now))]
      && users[i].Decrypt(env.encryption).Success?
      && var user := users[i].Decrypt(env.encryption).value;
         && env.tokens.read(o.result.value.value) == Some(GenerateJwt(env.config, user, now).value)
         && GenerateJwt(env.config, user, now).value.claims == UserClaims(user)
         && GenerateJwt(env.config, user, now).value.expires == ToUnixSeconds(now + TokenLifetimeHours * TicksPerHour)
  {
  }

  /** Login keeps ids and encrypted emails as they were, so it keeps both uniqueness rules. */
  lemma LoginPreservesUniqueness(env: AuthEnv, users: seq<EncryptedUserModel>, email: string, password: string, now: DateTime)
    requires UniqueEmails(users) && UniqueIds(users)
    ensures UniqueEmails(Login(env, users, email, password, now).users)
    ensures UniqueIds(Login(env, users, email, password, now).users)
  {
    var o := Login(env, users, email, password, now);
    LoginOnlyStamps(env, users, email, password, now);
    if o.users != users {
      var i :| 0 <= i < |users| && o.users == users[i := users[i].(lastLoginAt := Some(now))];
      assert forall k :: 0 <= k < |users| ==>
        o.users[k].encryptedEmail == users[k].encryptedEmail && o.users[k].id == users[k].id;
    }
  }

  /** A login changes at most one stored record, and only its last-login time. */
  lemma LoginOnlyStamps(env: AuthEnv, users: seq<EncryptedUserModel>, email: string, password: string, now: DateTime)
    ensures var o := Login(env, users, email, password, now);
      || o.users == users
      || exists i :: 0 <= i < |users| && o.users == users[i := users[i].(lastLoginAt := Some(now))]
  {
    match FindByEmail(users, Encrypt(env.encryption, ToLowerInvariant(email)))
    case None =>
    case Some(i) =>
      assert Login(env, users, email, password, now).users in {users, users[i := users[i].(lastLoginAt := Some(now))]};
  }

  /** Registration answers null and changes nothing when a stored user already has the
      encrypted lower-case email. */
  lemma RegisterRejectsTakenEmail(env: AuthEnv, users: seq<EncryptedUserModel>, email: string, username: string,
                                  password: string, newId: Guid, now: DateTime, salt: seq<Byte>)
    requires exists j :: 0 <= j < |users| && users[j].encryptedEmail == EmailKey(env, email)
    ensures Register(env, users, email, username, password, newId, now, salt) == Outcome(Success(None), users)
  {
  }

  /** A registration with a new email and a fresh id appends exactly one record and returns the
      plaintext user. The record decrypts to that user (lower-case name and email, the display
      name as given, active, never logged in, no picture or bio), it is found by the encrypted
      lower-case email, and its hash is the one made from the password for the lower-case email,
      so it verifies that password. */
  lemma {:induction false} RegisterInserts(env: AuthEnv, users: seq<EncryptedUserModel>, email: string, username: string,
                                           password: string, newId: Guid, now: DateTime, salt: seq<Byte>)
    requires env.Lawful()
    requires forall j :: 0 <= j < |users| ==> users[j].encryptedEmail != EmailKey(env, email)
    requires forall j :: 0 <= j < |users| ==> users[j].id != newId
    ensures var o := Register(env, users, email, username, password, newId, now, salt);
      && o.result == Success(Some(NewUser(email, username, newId, now)))
      && |o.users| == |users| + 1 && o.users[..|users|] == users
      && var record := o.users[|users|];
         && record == NewUser(email, username, newId, now).Encrypt(env.encryption).(passwordHash := record.passwordHash)
         && record.id == newId
         && record.encryptedEmail == EmailKey(env, email)
         && record.Decrypt(env.encryption) == Success(NewUser(email, username, newId, now))
         && record.passwordHash == Some(env.hasher.hashPassword(ToLowerInvariant(email), password, salt))
         && env.hasher.verifyHashedPassword(ToLowerInvariant(email), record.passwordHash.value, password) != Failed
  {
    var user := NewUser(email, username, newId, now);
    var o := Register(env, users, email, username, password, newId, now, salt);
    var record := o.users[|users|];
    assert record == user.Encrypt(env.encryption).(passwordHash := record.passwordHash);
    Users.DecryptEncrypt(user, env.encryption);
    assert o.users[..|users|] == users;
  }

  /** Registration appends only a record whose encrypted email and id are new, so it keeps both
      uniqueness rules. */
  lemma RegisterPreservesUniqueness(env: AuthEnv, users: seq<EncryptedUserModel>, email: string, username: string,
                                    password: string, newId: Guid, now: DateTime, salt: seq<Byte>)
    requires UniqueEmails(users) && UniqueIds(users)
    ensures UniqueEmails(Register(env, users, email, username, password, newId, now, salt).users)
    ensures UniqueIds(Register(env, users, email, username, password, newId, now, salt).users)
  {
    var o := Register(env, users, email, username, password, newId, now, salt);
    if o.users != users {
      var record := o.users[|users|];
      assert o.users == users + [record];
      assert record.encryptedEmail == EmailKey(env, email) && record.id == newId;
      assert forall j :: 0 <= j < |users| ==> o.users[j] == users[j];
    }
  }

  /** A step of the service against the table. */
  datatype Request =
    | RegisterRequest(email: string, username: string, password: string, newId: Guid, now: DateTime, salt: seq<Byte>)
    | LoginRequest(email: string, password: string, now: DateTime)
    | MeRequest(token: Option<string>)

  /** The table after a run of requests, in order. */
  function Run(env: AuthEnv, users: seq<EncryptedUserModel>, requests: seq<Request>): seq<EncryptedUserModel>
    decreases |requests|
  {
    if requests == [] then users
    else
      var next := match requests[0]
        case RegisterRequest(email, username, password, newId, now, salt) =>
          Register(env, users, email, username, password, newId, now, salt).users
        case LoginRequest(email, password, now) => Login(env, users, email, password, now).users
        case MeRequest(_) => users;
      Run(env, next, requests[1..])
  }

  /** As long as only the service writes the table, starting from an empty one, no two users
      share an encrypted email or an id, whatever the requests. */
  lemma {:induction false} RunKeepsUniqueness(env: AuthEnv, users: seq<EncryptedUserModel>, requests: seq<Request>)
    requires UniqueEmails(users) && UniqueIds(users)
    ensures UniqueEmails(Run(env, users, requests)) && UniqueIds(Run(env, users, requests))
    decreases |requests|
  {
    if requests != [] {
      match requests[0]
      case RegisterRequest(email, username, password, newId, now, salt) =>
        RegisterPreservesUniqueness(env, users, email, username, password, newId, now, salt);
        RunKeepsUniqueness(env, Register(env, users, email, username, password, newId, now, salt).users, requests[1..]);
      case LoginRequest(email, password, now) =>
        LoginPreservesUniqueness(env, users, email, password, now);
        RunKeepsUniqueness(env, Login(env, users, email, password, now).users, requests[1..]);
      case MeRequest(_) =>
        RunKeepsUniqueness(env, users, requests[1..]);
    }
  }

  /** With encrypted emails that are encryptions of plaintext emails, uniqueness of the
      ciphertexts is uniqueness of the plaintexts: the lookup by ciphertext is a lookup by email. */
  lemma CiphertextUniquenessIsEmailUniqueness(svc: EncryptionService, users: seq<EncryptedUserModel>, emails: seq<string>)
    requires svc.Valid() && svc.aes.Lawful()
    requires |emails| == |users|
    requires forall i :: 0 <= i < |users| ==> users[i].encryptedEmail == Encrypt(svc, emails[i])
    ensures UniqueEmails(users) <==> forall i, j :: 0 <= i < j < |emails| ==> emails[i] != emails[j]
  {
    forall i, j | 0 <= i < j < |emails|
      ensures users[i].encryptedEmail == users[j].encryptedEmail <==> emails[i] == emails[j]
    {
      Encryption.EncryptInjective(svc, emails[i], emails[j]);
    }
  }

  /** The current-user lookup trusts whatever the token's claims say: any text that parses as a
      token whose first NameIdentifier claim, at any position, names a stored user's id yields
      that user, whoever signed it, whatever its issuer or audience and however long ago it
      expired. */
  lemma UnverifiedTokenAccepted(env: AuthEnv, users: seq<EncryptedUserModel>, token: string, jwt: JwtSecurityToken,
                                c: nat, i: nat)
    requires UniqueIds(users) && i < |users|
    requires token != "" && env.tokens.read(token) == Some(jwt)
    requires c < |jwt.claims| && jwt.claims[c] == Claim(NameIdentifierClaim, Format(users[i].id))
    requires forall j :: 0 <= j < c ==> !IsNameIdentifier(jwt.claims[j])
    requires users[i].Decrypt(env.encryption).Success?
    ensures GetCurrentUser(env, users, Some(token)) == Success(Some(users[i].Decrypt(env.encryption).value))
  {
    assert IsNameIdentifier(jwt.claims[c]);
    assert FirstIndex(jwt.claims, IsNameIdentifier) == Some(c);
    ParseFormat(users[i].id);
    FirstIndexOfUnique(users, (u: EncryptedUserModel) => u.id == users[i].id, i);
    assert FindById(users, users[i].id) == Some(i);
  }

  /** Logging in right after a registration, with a case variant of its email and its
      password, finds the new record, issues the token of the registered user and stamps
      that record's `LastLoginAt`. */
  lemma {:induction false} LoginAfterRegister(env: AuthEnv, users: seq<EncryptedUserModel>, email: string, username: string,
                                              password: string, newId: Guid, now: DateTime, salt: seq<Byte>,
                                              loginEmail: string, loginNow: DateTime)
    requires env.Lawful()
    requires forall j :: 0 <= j < |users| ==> users[j].encryptedEmail != EmailKey(env, email)
    requires forall j :: 0 <= j < |users| ==> users[j].id != newId
    requires SameIgnoringCase(loginEmail, email)
    requires env.config.key.Some? && env.config.key.value != ""
    requires loginNow + TokenLifetimeHours * TicksPerHour <= MaxTicks
    ensures var table := Register(env, users, email, username, password, newId, now, salt).users;
      && |table| == |users| + 1
      && var login := Login(env, table, loginEmail, password, loginNow);
         && GenerateJwt(env.config, NewUser(email, username, newId, now), loginNow).Success?
         && login.result == Success(Some(env.tokens.write(GenerateJwt(env.config, NewUser(email, username, newId, now), loginNow).value)))
         && login.users == table[|users| := table[|users|].(lastLoginAt := Some(loginNow))]
  {
    RegisterInserts(env, users, email, username, password, newId, now, salt);
    var table := Register(env, users, email, username, password, newId, now, salt).users;
    assert EmailKey(env, loginEmail) == EmailKey(env, email);
    assert forall j :: 0 <= j < |table| && j != |users| ==> table[j].encryptedEmail != EmailKey(env, email) by {
      assert table[..|users|] == users;
      assert forall j :: 0 <= j < |users| ==> table[j] == table[..|users|][j];
    }
    FirstIndexOfUnique(table, (u: EncryptedUserModel) => u.encryptedEmail == EmailKey(env, email), |users|);
  }

  /** A token issued to a user finds, in a table with unique ids, the stored encryption of
      that user, whatever its password hash and last login. */
  lemma IssuedTokenFindsUser(env: AuthEnv, table: seq<EncryptedUserModel>, k: nat, issuedTo: UserModel,
                             stored: UserModel, hash: Option<string>, jwt: JwtSecurityToken)
    requires env.Lawful() && UniqueIds(table) && k < |table|
    requires table[k] == stored.Encrypt(env.encryption).(passwordHash := hash)
    requires stored.id == issuedTo.id && jwt.claims == UserClaims(issuedTo)
    ensures GetCurrentUser(env, table, Some(env.tokens.write(jwt))) == Success(Some(stored))
  {
    Users.DecryptEncrypt(stored, env.encryption);
    assert table[k].Decrypt(env.encryption) == Success(stored);
    UnverifiedTokenAccepted(env, table, env.tokens.write(jwt), jwt, 0, k);
  }

  /** Registering, then logging in with any case variant of the email and the same password,
      returns a token; reading the current user with that token gives the registered user with
      the lower-case email and `LastLoginAt` set to the login time. */
  lemma {:induction false} RegisterThenLogin(env: AuthEnv, users: seq<EncryptedUserModel>, email: string, username: string,
                                             password: string, newId: Guid, now: DateTime, salt: seq<Byte>,
                                             loginEmail: string, loginNow: DateTime)
    requires env.Lawful() && UniqueEmails(users) && UniqueIds(users)
    requires forall j :: 0 <= j < |users| ==> users[j].encryptedEmail != EmailKey(env, email)
    requires forall j :: 0 <= j < |users| ==> users[j].id != newId
    requires SameIgnoringCase(loginEmail, email)
    requires env.config.key.Some? && env.config.key.value != ""
    requires loginNow + TokenLifetimeHours * TicksPerHour <= MaxTicks
    ensures var registered := Register(env, users, email, username, password, newId, now, salt);
      var login := Login(env, registered.users, loginEmail, password, loginNow);
      && login.result.Success? && login.result.value.Some?
      && GetCurrentUser(env, login.users, login.result.value) ==
           Success(Some(NewUser(email, username, newId, now).(lastLoginAt := Some(loginNow))))
      && NewUser(email, username, newId, now).email == ToLowerInvariant(email)
  {
    var user := NewUser(email, username, newId, now);
    RegisterInserts(env, users, email, username, password, newId, now, salt);
    LoginAfterRegister(env, users, email, username, password, newId, now, salt, loginEmail, loginNow);
    var table := Register(env, users, email, username, password, newId, now, salt).users;
    var login := Login(env, table, loginEmail, password, loginNow);
    assert UniqueIds(login.users) by {
      RegisterPreservesUniqueness(env, users, email, username, password, newId, now, salt);
      LoginPreservesUniqueness(env, table, loginEmail, password, loginNow);
    }
    StampedRecordFound(env, table, login.users, |users|, user, table[|users|].passwordHash, loginNow,
                       GenerateJwt(env.config, user, loginNow).value);
  }

  /** The record a login stamped is still found by the token the login issued, and decrypts to
      the user with `LastLoginAt` set. */
  lemma StampedRecordFound(env: AuthEnv, table: seq<EncryptedUserModel>, after: seq<EncryptedUserModel>, k: nat,
                           user: UserModel, hash: Option<string>, loginNow: DateTime, jwt: JwtSecurityToken)
    requires env.Lawful() && UniqueIds(after) && k < |table|
    requires table[k] == user.Encrypt(env.encryption).(passwordHash := hash)
    requires after == table[k := table[k].(lastLoginAt := Some(loginNow))]
    requires jwt.claims == UserClaims(user)
    ensures GetCurrentUser(env, after, Some(env.tokens.write(jwt))) == Success(Some(user.(lastLoginAt := Some(loginNow))))
  {
    var stamped := user.(lastLoginAt := Some(loginNow));
    assert after[k] == stamped.Encrypt(env.encryption).(passwordHash := hash);
    IssuedTokenFindsUser(env, after, k, user, stamped, hash, jwt);
  }

  /** After a registration, registering again with any case variant of the email is refused
      and changes nothing. */
  lemma RegisterTwiceRejected(env: AuthEnv, users: seq<EncryptedUserModel>, email: string, username: string,
                              password: string, newId: Guid, now: DateTime, salt: seq<Byte>,
                              email2: string, username2: string, password2: string, newId2: Guid, now2: DateTime,
                              salt2: seq<Byte>)
    requires env.Lawful()
    requires Register(env, users, email, username, password, newId, now, salt).result.Success?
    requires SameIgnoringCase(email2, email)
    ensures var table := Register(env, users, email, username, password, newId, now, salt).users;
      Register(env, table, email2, username2, password2, newId2, now2, salt2) == Outcome(Success(None), table)
  {
    var o := Register(env, users, email, username, password, newId, now, salt);
    if o.result.value.Some? {
      assert o.users[|users|].encryptedEmail == EmailKey(env, email2);
    } else {
      var i := FindByEmail(users, EmailKey(env, email)).value;
      assert users[i].encryptedEmail == EmailKey(env, email2);
    }
  }
}
