/** The plaintext user record (`UserModel`), its at-rest form (`EncryptedUserModel`) and the
    field-by-field maps between them. */
module Users {
  import opened Wrappers
  import opened Guids
  import opened Times
  import opened Encryption

  /** A plaintext user; it is never stored. */
  datatype UserModel = UserModel(
    id: Guid,
    name: string,
    email: string,
    displayName: string,
    createdAt: DateTime,
    lastLoginAt: Option<DateTime>,
    isActive: bool,
    profilePictureUrl: Option<string>,
    bio: Option<string>)
  {
    /** The at-rest form: Name, Email and DisplayName are encrypted, the optional fields are
        encrypted when present and stay null otherwise, the other fields are copied, and the
        password hash is left unset for the caller to fill in. */
    function Encrypt(svc: EncryptionService): (r: EncryptedUserModel)
      ensures r.id == id && r.createdAt == createdAt && r.lastLoginAt == lastLoginAt && r.isActive == isActive
      ensures r.encryptedName == Encryption.Encrypt(svc, name)
      ensures r.encryptedEmail == Encryption.Encrypt(svc, email)
      ensures r.encryptedDisplayName == Encryption.Encrypt(svc, displayName)
      ensures r.encryptedProfilePictureUrl.Some? <==> profilePictureUrl.Some?
      ensures profilePictureUrl.Some? ==> r.encryptedProfilePictureUrl.value == Encryption.Encrypt(svc, profilePictureUrl.value)
      ensures r.encryptedBio.Some? <==> bio.Some?
      ensures bio.Some? ==> r.encryptedBio.value == Encryption.Encrypt(svc, bio.value)
      ensures r.passwordHash.None?
    {
      EncryptedUserModel(
        id := id,
        encryptedName := Encryption.Encrypt(svc, name),
        encryptedDisplayName := Encryption.Encrypt(svc, displayName),
        encryptedEmail := Encryption.Encrypt(svc, email),
        createdAt := createdAt,
        lastLoginAt := lastLoginAt,
        isActive := isActive,
        encryptedProfilePictureUrl := EncryptOptional(svc, profilePictureUrl),
        encryptedBio := EncryptOptional(svc, bio),
        passwordHash := None)
    }
  }

  /** A stored user: ciphertext in place of the personal fields, plus the password hash. */
  datatype EncryptedUserModel = EncryptedUserModel(
    id: Guid,
    encryptedName: string,
    encryptedDisplayName: string,
    encryptedEmail: string,
    createdAt: DateTime,
    lastLoginAt: Option<DateTime>,
    isActive: bool,
    encryptedProfilePictureUrl: Option<string>,
    encryptedBio: Option<string>,
    passwordHash: Option<string>)
  {
    /** The plaintext user: decrypts Name, Email and DisplayName, then ProfilePictureUrl and Bio
        when present, in that order; the first decryption that throws ends the call with its
        exception. The password hash has no place in the result. */
    function Decrypt(svc: EncryptionService): (r: Result<UserModel>)
      ensures r.Success? <==>
        && Encryption.Decrypt(svc, Some(encryptedName)).Success?
        && Encryption.Decrypt(svc, Some(encryptedEmail)).Success?
        && Encryption.Decrypt(svc, Some(encryptedDisplayName)).Success?
        && DecryptOptional(svc, encryptedProfilePictureUrl).Success?
        && DecryptOptional(svc, encryptedBio).Success?
      ensures r.Success? ==>
        && r.value.id == id && r.value.createdAt == createdAt
        && r.value.lastLoginAt == lastLoginAt && r.value.isActive == isActive
        && Encryption.Decrypt(svc, Some(encryptedName)) == Success(r.value.name)
        && Encryption.Decrypt(svc, Some(encryptedEmail)) == Success(r.value.email)
        && Encryption.Decrypt(svc, Some(encryptedDisplayName)) == Success(r.value.displayName)
        && (r.value.profilePictureUrl.Some? <==> encryptedProfilePictureUrl.Some?)
        && (r.value.bio.Some? <==> encryptedBio.Some?)
        && (encryptedProfilePictureUrl.Some? ==>
              Encryption.Decrypt(svc, encryptedProfilePictureUrl) == Success(r.value.profilePictureUrl.value))
        && (encryptedBio.Some? ==> Encryption.Decrypt(svc, encryptedBio) == Success(r.value.bio.value))
    {
      var name :- Encryption.Decrypt(svc, Some(encryptedName));
      var email :- Encryption.Decrypt(svc, Some(encryptedEmail));
      var displayName :- Encryption.Decrypt(svc, Some(encryptedDisplayName));
      var profilePictureUrl :- DecryptOptional(svc, encryptedProfilePictureUrl);
      var bio :- DecryptOptional(svc, encryptedBio);
      Success(UserModel(
        id := id,
        name := name,
        email := email,
        displayName := displayName,
        createdAt := createdAt,
        lastLoginAt := lastLoginAt,
        isActive := isActive,
        profilePictureUrl := profilePictureUrl,
        bio := bio))
    }
  }

  /** `x != null ? Encrypt(x) : null`. */
  function EncryptOptional(svc: EncryptionService, x: Option<string>): Option<string>
  {
    match x
    case None => None
    case Some(s) => Some(Encryption.Encrypt(svc, s))
  }

  /** `x != null ? Decrypt(x) : null`. */
  function DecryptOptional(svc: EncryptionService, x: Option<string>): Result<Option<string>>
  {
    match x
    case None => Success(None)
    case Some(_) =>
      var s :- Encryption.Decrypt(svc, x);
      Success(Some(s))
  }

  /** Decrypting the at-rest form of a user gives the user back, field by field. */
  lemma {:induction false} DecryptEncrypt(u: UserModel, svc: EncryptionService)
    requires svc.Valid() && svc.aes.Lawful()
    ensures u.Encrypt(svc).Decrypt(svc) == Success(u)
  {
    Encryption.DecryptEncrypt(svc, u.name);
    Encryption.DecryptEncrypt(svc, u.email);
    Encryption.DecryptEncrypt(svc, u.displayName);
    if u.profilePictureUrl.Some? {
      Encryption.DecryptEncrypt(svc, u.profilePictureUrl.value);
    }
    if u.bio.Some? {
      Encryption.DecryptEncrypt(svc, u.bio.value);
    }
  }

  /** Encryption of users is injective: equal at-rest records come from equal users. */
  lemma EncryptInjective(u: UserModel, v: UserModel, svc: EncryptionService)
    requires svc.Valid() && svc.aes.Lawful()
    ensures u.Encrypt(svc) == v.Encrypt(svc) <==> u == v
  {
    if u.Encrypt(svc) == v.Encrypt(svc) {
      DecryptEncrypt(u, svc);
      DecryptEncrypt(v, svc);
    }
  }
}
