# SimRacing Dashboard API: authentication, field encryption and the track table

This project models the core of the SimRacing Dashboard backend in Dafny and proves properties of the model. The core has three parts:

- **Field-level encryption of users.** `EncryptionService` is a deterministic symmetric cipher with one fixed 32-byte key and one fixed 16-byte IV. `UserModel.Encrypt` and `EncryptedUserModel.Decrypt` map a user to its at-rest form and back: the name, email and display name are encrypted, and so are the picture URL and bio when present.
- **Authentication.** `AuthService` covers registration, login and current-user lookup, plus the JWT issued at login.
  - Emails are lower-cased with `ToLowerInvariant`, encrypted, and looked up by equality on the ciphertext.
  - Passwords are hashed with the lower-cased email as the hasher's user name.
  - A login stamps `LastLoginAt`.
  - The current-user lookup reads the id from the token's first NameIdentifier claim.
- **The track table.** `TrackController` lists and reads tracks, creates them with `Post`, replaces them with `Put` and partially updates them with `Patch`. Each write checks uniqueness on Name, Location and Country, and `Patch` also checks LayoutVersion. Responses are wrapped in the `ApiResponse` envelope. `CreateTrackRequest` defaults LayoutVersion to "GP" and builds a new track with `ToModel`.

How the code is modelled:

- **Tables.** Both tables are sequences of rows in table order, so that `FirstOrDefault` and `FindAsync` take a definite first match. Their primary key is unique as a proved invariant.
- **Exceptions.** An exception that escapes a call is a `Failure` of `Result`. An exception that escapes a controller action is the `Unhandled` action result.
- **The services and the controller.** Both are classes. `LoginAsync`, `RegisterAsync`, `Post`, `Put` and `Patch` change the table field by field. Each is proved equal to a pure function (`Login`, `Register`, `PostOutcome`, `PutOutcome` or `PatchOutcome`), and the lemmas are stated about those functions.
- **Library collaborators.** These are datatypes of functions together with the laws the code relies on:
  - the AES/UTF-8/Base64 transform (`Encryption.Aes`): decryption undoes encryption of any string of Unicode scalar values, and ciphertext is longer than plaintext;
  - ASP.NET Identity's `PasswordHasher` (`Auth.PasswordHasher`): a hash made for a password verifies that password;
  - the JWT writer and reader (`Jwt.JwtHandler`): reading a written token gives the token back.
- **Inputs.** The clock (`now`), `Guid.NewGuid()` (`newId`) and the hasher's random salt (`salt`) are parameters.

## Model

| member | source | states |
|---|---|---|
| Seqs.FirstIndex | SimRacingDashboard.Api/Services/AuthService.cs:31 | `FirstOrDefault`: the index found satisfies the filter, no earlier row does, and nothing is found exactly when no row satisfies it |
| Text.ToLowerInvariant | SimRacingDashboard.Api/Services/AuthService.cs:30 | keeps the length and lower-cases each character in its place (Basic Latin and Latin-1) |
| Text.ToLowerInvariantIdempotent | SimRacingDashboard.Api/Services/AuthService.cs:59-61 | a lower-cased email or name is its own lower-case form |
| Text.IsWhiteSpace | SimRacingDashboard.Api/Controllers/TrackController.cs:105-113 | `char.IsWhiteSpace`; a white-space character has no lower-case form of its own |
| Text.IsNullOrEmpty | SimRacingDashboard.Api/Services/AuthService.cs:79 | `string.IsNullOrEmpty`: null or of length zero |
| Text.IsNullOrWhiteSpace | SimRacingDashboard.Api/Controllers/TrackController.cs:105-113 | `string.IsNullOrWhiteSpace`: every null or empty string counts, and a non-empty string that counts begins with a white-space character |
| Guids.HexValue | SimRacingDashboard.Api/Services/AuthService.cs:92 | a character has a hex value exactly when it is a hex digit of either case |
| Guids.ParseHexOfHex | SimRacingDashboard.Api/Services/AuthService.cs:92 | hex digits printed in lower case parse back to the same nibbles |
| Guids.Format | SimRacingDashboard.Api/Services/AuthService.cs:110 | `Guid.ToString()` is 36 characters with hyphens at positions 8, 13, 18 and 23 |
| Guids.Parse | SimRacingDashboard.Api/Services/AuthService.cs:92 | `Guid.Parse` on untrimmed text: what it accepts is 36 characters hyphenated like the "D" format, and anything it refuses fails with `FormatException` |
| Guids.ParseFormat | SimRacingDashboard.Api/Services/AuthService.cs:92 | parsing the text of a Guid gives that Guid back, so the id claim written at line 110 reads back at line 92 |
| Guids.FormatInjective | SimRacingDashboard.Api/Services/AuthService.cs:110 | two Guids print the same exactly when they are equal |
| Times.AddHours | SimRacingDashboard.Api/Services/AuthService.cs:122 | adds the hours when the result stays in range and throws `ArgumentOutOfRangeException` otherwise |
| Times.ToUnixSeconds | SimRacingDashboard.Api/Services/AuthService.cs:122 | the token's `exp` is 0 up to the Unix epoch and the whole seconds since the epoch after it |
| Times.FormatRoundTrip | SimRacingDashboard.Api/Services/AuthService.cs:113-114 | the "o" form of a UTC instant is 28 characters long |
| Times.DigitsValue | SimRacingDashboard.Api/Services/AuthService.cs:113-114 | a number that fits the width is printed as decimal digits that denote exactly that number |
| Times.CivilOfEpochDay | SimRacingDashboard.Api/Services/AuthService.cs:113-114 | the day of the Unix epoch is 1970-01-01 |
| Times.CivilOfFirstDay | SimRacingDashboard.Api/Services/AuthService.cs:113-114 | the day of `DateTime.MinValue` is 0001-01-01 |
| Times.CivilOfLastDay | SimRacingDashboard.Api/Services/AuthService.cs:113-114 | the day of `DateTime.MaxValue` is 9999-12-31 |
| Encryption.Create | SimRacingDashboard.Api/Services/EncryptionService.cs:12-22 | construction succeeds exactly for a 32-byte key and a 16-byte IV; a bad key fails with the key message before the IV is checked, a bad IV with the IV message |
| Encryption.Encrypt | SimRacingDashboard.Api/Services/EncryptionService.cs:24-35 | for a valid service over a lawful cipher, the ciphertext decrypts back to the plaintext and is longer than it |
| Encryption.Decrypt | SimRacingDashboard.Api/Services/EncryptionService.cs:37-48 | a null argument throws `ArgumentNullException` |
| Encryption.DecryptEncrypt | SimRacingDashboard.Api/Services/EncryptionService.cs:24-48 | decryption undoes encryption for every string of Unicode scalar values, the empty string included |
| Encryption.EncryptInjective | SimRacingDashboard.Api/Services/EncryptionService.cs:24-35 | two plaintexts have equal ciphertexts exactly when they are equal, which is what makes lookup by encrypted email sound |
| Encryption.CiphertextDiffers | SimRacingDashboard.Api.Tests/EncryptionServiceTests.cs:16-63 | no string is its own ciphertext, and "" encrypts to non-empty text that decrypts back to "" |
| Users.UserModel.Encrypt | SimRacingDashboard.Api/Models/UserModel.cs:31-45 | encrypts name, email and display name; encrypts picture and bio when present and keeps them null otherwise; copies id, dates and the active flag; sets no password hash |
| Users.EncryptedUserModel.Decrypt | SimRacingDashboard.Api/Models/EncryptedUserModel.cs:32-46 | succeeds exactly when every present field decrypts; the result holds those plaintexts, keeps null optional fields null, and copies id, dates and the active flag |
| Users.DecryptEncrypt | SimRacingDashboard.Api/Models/EncryptedUserModel.cs:32-46 | decrypting the at-rest form of a user gives the user back |
| Users.EncryptInjective | SimRacingDashboard.Api/Models/UserModel.cs:31-45 | distinct users have distinct at-rest forms |
| Auth.FindByEmail | SimRacingDashboard.Api/Services/AuthService.cs:30-31 | finds the first row with that encrypted email, or none when no row has it |
| Auth.FindById | SimRacingDashboard.Api/Services/AuthService.cs:93 | finds a row with that id, or none when no row has it |
| Auth.UserClaims | SimRacingDashboard.Api/Services/AuthService.cs:108-116 | six claims, the first three being the NameIdentifier (the id in "D" format), the Name and the Email of the user |
| Auth.GenerateJwt | SimRacingDashboard.Api/Services/AuthService.cs:101-127 | a missing key throws `ArgumentNullException`, an empty one `ArgumentException`, and an expiry out of range `ArgumentOutOfRangeException`; otherwise the token has the configured issuer and audience, the user's six claims, and an expiry 24 hours after `now` |
| Auth.TokenIdentifiesUser | SimRacingDashboard.Api/Services/AuthService.cs:108-116 | the first NameIdentifier claim is the user's id and parses back to it; the Name and Email claims carry the user's name and email |
| Auth.Login | SimRacingDashboard.Api/Services/AuthService.cs:28-46 | the table keeps its length; it changes only when a token is returned, and a token is returned only when a row has the encrypted lower-case email (the full case analysis is `AuthProperties.LoginRejects` and `AuthProperties.LoginSucceeds`) |
| Auth.NewUser | SimRacingDashboard.Api/Services/AuthService.cs:56-67 | the new user has the fresh id, the creation time and the display name as given; its name and email are the lower-case forms of the input, already in lower case; it is active, has never logged in, and has no picture and no bio |
| Auth.Register | SimRacingDashboard.Api/Services/AuthService.cs:48-74 | when the table changes, the answer is the new user and the table is the old one with one record appended; a returned user always means a changed table (the full cases are `AuthProperties.RegisterRejectsTakenEmail` and `AuthProperties.RegisterInserts`) |
| Auth.GetCurrentUser | SimRacingDashboard.Api/Services/AuthService.cs:77-99 | a null or empty token gives null; unreadable text throws `SecurityTokenMalformedException`; a token without a NameIdentifier claim gives null; an id claim that is not a Guid throws `FormatException`; an unknown id gives null; otherwise the answer is the decryption of the row the first NameIdentifier claim names, and any user returned is the decryption of a stored row |
| Auth.AuthService.constructor | SimRacingDashboard.Api/Services/AuthService.cs:20-26 | the service keeps the table and its collaborators |
| Auth.AuthService.LoginAsync | SimRacingDashboard.Api/Services/AuthService.cs:28-46 | the token and the new table are those of `Login` on the old table |
| Auth.AuthService.RegisterAsync | SimRacingDashboard.Api/Services/AuthService.cs:48-75 | the user returned and the new table are those of `Register` on the old table |
| Auth.AuthService.GetCurrentUserAsync | SimRacingDashboard.Api/Services/AuthService.cs:77-99 | returns `GetCurrentUser` of the table and changes nothing |
| AuthProperties.LoginRejects | SimRacingDashboard.Api/Services/AuthService.cs:28-37 | login returns null exactly for an unknown email or a password the hasher rejects; a null or a throw leaves the table unchanged |
| AuthProperties.LoginSucceeds | SimRacingDashboard.Api/Services/AuthService.cs:39-45 | a token is returned only for a found row that decrypts; only that row's `LastLoginAt` changes, to `now`; the token carries the user's claims and expires 24 hours later |
| AuthProperties.LoginPreservesUniqueness | SimRacingDashboard.Api/Services/AuthService.cs:42-44 | login keeps encrypted emails and ids unique |
| AuthProperties.LoginOnlyStamps | SimRacingDashboard.Api/Services/AuthService.cs:28-46 | a login leaves the table as it was, or changes one record and only its last-login time |
| AuthProperties.RegisterRejectsTakenEmail | SimRacingDashboard.Api/Services/AuthService.cs:50-54 | an email already stored, in any case, gives null and leaves the table unchanged |
| AuthProperties.RegisterInserts | SimRacingDashboard.Api/Services/AuthService.cs:56-74 | a new email and a fresh id append exactly one row; it is keyed by the encrypted lower-case email, decrypts to the new user, and its hash is the one made from the password for the lower-case email, so it verifies that password |
| AuthProperties.RegisterPreservesUniqueness | SimRacingDashboard.Api/Services/AuthService.cs:50-73 | registration keeps encrypted emails and ids unique |
| AuthProperties.RunKeepsUniqueness | SimRacingDashboard.Api/Services/AuthService.cs:28-99 | any sequence of registrations, logins and lookups keeps both uniqueness rules |
| AuthProperties.CiphertextUniquenessIsEmailUniqueness | SimRacingDashboard.Api/Services/AuthService.cs:30-31 | stored encrypted emails are unique exactly when the plaintext emails are |
| AuthProperties.UnverifiedTokenAccepted | SimRacingDashboard.Api/Services/AuthService.cs:82-98 | any readable token whose first NameIdentifier claim, at any position, names a stored id yields that user, whatever its signature, issuer, audience or expiry |
| AuthProperties.LoginAfterRegister | SimRacingDashboard.Api/Services/AuthService.cs:28-75 | after a registration, logging in with any case variant of the email and the same password issues the new user's token and stamps the new row |
| AuthProperties.IssuedTokenFindsUser | SimRacingDashboard.Api/Services/AuthService.cs:88-98 | a token issued to a user finds that user's stored row |
| AuthProperties.StampedRecordFound | SimRacingDashboard.Api/Services/AuthService.cs:42-43 | the row a login stamped is found by the login's token and decrypts to the user with `LastLoginAt` set |
| AuthProperties.RegisterThenLogin | SimRacingDashboard.Api/Services/AuthService.cs:28-99 | register, then log in, then look up the current user: the lookup returns the registered user with the lower-case email and `LastLoginAt` set to the login time |
| AuthProperties.RegisterTwiceRejected | SimRacingDashboard.Api/Services/AuthService.cs:50-54 | registering again with any case variant of a registered email is refused and changes nothing |
| ApiResponses.Default | SimRacingDashboard.Api/Dtos/ApiResponse.cs:5-9 | a default generic response has `Success` false and no message or data |
| ApiResponses.Create | SimRacingDashboard.Api/Dtos/ApiResponse.cs:11-16 | the constructor stores its arguments; success defaults to true and the message to null |
| ApiResponses.Ok | SimRacingDashboard.Api/Dtos/ApiResponse.cs:19-20 | success, with the data and the message |
| ApiResponses.Fail | SimRacingDashboard.Api/Dtos/ApiResponse.cs:22-23 | failure, with the message and no data |
| ApiResponses.PlainDefault | SimRacingDashboard.Api/Dtos/ApiResponse.cs:29-32 | a default non-generic response has `Success` true |
| ApiResponses.PlainCreate | SimRacingDashboard.Api/Dtos/ApiResponse.cs:34-38 | the non-generic constructor stores its arguments, with the same defaults |
| ApiResponses.PlainOk | SimRacingDashboard.Api/Dtos/ApiResponse.cs:40-41 | success, with the message |
| ApiResponses.PlainFail | SimRacingDashboard.Api/Dtos/ApiResponse.cs:43-44 | failure, with the message |
| ApiResponses.DefaultsDisagree | SimRacingDashboard.Api/Dtos/ApiResponse.cs:5-32 | the generic default reads as a failure and the non-generic default as a success |
| Tracks.CreateTrackRequest.ToModel | SimRacingDashboard.Api/Dtos/Track/CreateTrackRequest.cs:15-27 | the new track has the fresh id and every request field, absent optional fields included |
| Tracks.NewCreateTrackRequest | SimRacingDashboard.Api/Dtos/Track/CreateTrackRequest.cs:6-13 | a request that names no layout has LayoutVersion "GP" |
| Tracks.ToTrackDto | SimRacingDashboard.Api/Controllers/TrackController.cs:24 | the summary copies id, name, location, country and layout |
| Tracks.ToDetails | SimRacingDashboard.Api/Controllers/TrackController.cs:36 | the details copy all seven fields |
| Tracks.DetailsInjective | SimRacingDashboard.Api/Controllers/TrackController.cs:36 | two tracks have the same details exactly when they are the same track |
| Tracks.CreatedDetailsEchoRequest | SimRacingDashboard.Api/Controllers/TrackController.cs:47-55 | the details a created track answers with are the request's fields under the new id |
| TrackControllers.FindTrack | SimRacingDashboard.Api/Controllers/TrackController.cs:31 | `FindAsync(id)` finds a row with that id, or none when no row has it |
| TrackControllers.Overwrite | SimRacingDashboard.Api/Controllers/TrackController.cs:81-86 | the six assignments of `Put` make the track what the request would create under the track's own id |
| TrackControllers.ApplyPatch | SimRacingDashboard.Api/Controllers/TrackController.cs:105-121 | a patch never changes the id |
| TrackControllers.ListOutcome | SimRacingDashboard.Api/Controllers/TrackController.cs:21-26 | 200 with every row summarised, in table order |
| TrackControllers.GetOutcome | SimRacingDashboard.Api/Controllers/TrackController.cs:28-37 | 404 exactly when no row has the id; otherwise 200 with the details of a row with that id |
| TrackControllers.PostOutcome | SimRacingDashboard.Api/Controllers/TrackController.cs:39-57 | the table either stays as it was or gains exactly the request's model under the new id, and it changes exactly when the answer is 201 (the full cases are `TrackProperties.PostCases`) |
| TrackControllers.PutOutcome | SimRacingDashboard.Api/Controllers/TrackController.cs:59-92 | the table keeps its length and changes only on 200 (the full cases are `TrackProperties.PutCases` and `TrackProperties.PutReplacesOneRow`) |
| TrackControllers.PatchOutcome | SimRacingDashboard.Api/Controllers/TrackController.cs:94-138 | the table keeps its length and changes only on 200 (the full cases are `TrackProperties.PatchCases` and `TrackProperties.PatchFields`) |
| TrackControllers.TrackController.constructor | SimRacingDashboard.Api/Controllers/TrackController.cs:15-18 | the controller starts from the given table |
| TrackControllers.TrackController.GetAll | SimRacingDashboard.Api/Controllers/TrackController.cs:21-26 | returns `ListOutcome` of the table and changes nothing |
| TrackControllers.TrackController.Get | SimRacingDashboard.Api/Controllers/TrackController.cs:28-37 | returns `GetOutcome` of the table and changes nothing |
| TrackControllers.TrackController.Post | SimRacingDashboard.Api/Controllers/TrackController.cs:39-57 | the answer and the new table are those of `PostOutcome` on the old table |
| TrackControllers.TrackController.Put | SimRacingDashboard.Api/Controllers/TrackController.cs:59-92 | the answer and the new table are those of `PutOutcome` on the old table |
| TrackControllers.TrackController.Patch | SimRacingDashboard.Api/Controllers/TrackController.cs:94-138 | the answer and the new table are those of `PatchOutcome` on the old table |
| TrackProperties.FindsFirst | SimRacingDashboard.Api/Controllers/TrackController.cs:31 | the lookup finds the first row with the id |
| TrackProperties.FindAfterReplace | SimRacingDashboard.Api/Controllers/TrackController.cs:88 | writing a row back under its own id leaves the lookup where it was |
| TrackProperties.PostCases | SimRacingDashboard.Api/Controllers/TrackController.cs:39-57 | 409 "Track already exists!" exactly when a row has the triple; 201 exactly when none has it and the new id is free; only 201 changes the table, by appending `ToModel` under the new id, and it points `Get` at the new id |
| TrackProperties.PostPreservesUniqueness | SimRacingDashboard.Api/Controllers/TrackController.cs:42-48 | `Post` keeps ids unique and keeps both the three-field and the four-field rule |
| TrackProperties.PostThenGet | SimRacingDashboard.Api/Controllers/TrackController.cs:28-57 | after a 201, `Get` on the new id returns the details the 201 carried |
| TrackProperties.PutCases | SimRacingDashboard.Api/Controllers/TrackController.cs:59-92 | 400 exactly for a null body; 404 exactly for an unknown id; 409 exactly when a row with another id has the new triple; anything but 200 leaves the table unchanged |
| TrackProperties.PutReplacesOneRow | SimRacingDashboard.Api/Controllers/TrackController.cs:80-91 | a 200 replaces one row with that id by the request's model under the same id and answers with its details |
| TrackProperties.PutOwnTripleAccepted | SimRacingDashboard.Api/Controllers/TrackController.cs:71-78 | a track may keep its own triple: on a table that keeps the rules, such a `Put` is never a 409 |
| TrackProperties.PutPreservesUniqueness | SimRacingDashboard.Api/Controllers/TrackController.cs:71-89 | `Put` keeps ids unique and keeps both the three-field and the four-field rule |
| TrackProperties.ReplacedRowKeepsRules | SimRacingDashboard.Api/Controllers/TrackController.cs:71-89 | replacing a row by one with the same id and a triple no other row has keeps all the rules |
| TrackProperties.ReplacedRowKeepsRule4 | SimRacingDashboard.Api/Controllers/TrackController.cs:124-135 | replacing a row by one with the same id that matches no other row on all four fields keeps ids unique and the four-field rule |
| TrackProperties.PutIdempotent | SimRacingDashboard.Api/Controllers/TrackController.cs:59-92 | repeating a successful `Put` answers the same and changes nothing more |
| TrackProperties.PutThenGet | SimRacingDashboard.Api/Controllers/TrackController.cs:28-92 | after a 200, `Get` returns the request's fields under the same id |
| TrackProperties.PatchFields | SimRacingDashboard.Api/Controllers/TrackController.cs:105-121 | Name, Location and Country change only to a value that is neither null nor white space; LayoutVersion changes to any non-null value; Turns and LengthKm change to any value present; every other field stays |
| TrackProperties.BlankPatchValues | SimRacingDashboard.Api/Controllers/TrackController.cs:105-115 | an empty patch, or one with only white-space text, changes nothing, but an empty LayoutVersion replaces the layout |
| TrackProperties.PatchCases | SimRacingDashboard.Api/Controllers/TrackController.cs:94-138 | 400 exactly for a null body; 404 exactly for an unknown id; 409 exactly when a row with another id matches the patched track on all four fields; anything but 200 leaves the table unchanged; a 200 writes the patched row back |
| TrackProperties.PatchPreservesUnique4 | SimRacingDashboard.Api/Controllers/TrackController.cs:124-135 | `Patch` keeps ids unique and the four-field rule |
| TrackProperties.PatchCanBreakUnique3 | SimRacingDashboard.Api/Controllers/TrackController.cs:124-129 | on a two-row table that keeps the three-field rule, renaming one track to the other's name is accepted because the layouts differ, and the three-field rule is broken |
| TrackProperties.PatchIdempotent | SimRacingDashboard.Api/Controllers/TrackController.cs:94-138 | repeating a successful `Patch` answers the same and changes nothing more |
| TrackProperties.PatchThenGet | SimRacingDashboard.Api/Controllers/TrackController.cs:28-138 | after a 200, `Get` returns the patched row |
| TrackProperties.RunKeepsUnique4 | SimRacingDashboard.Api/Controllers/TrackController.cs:21-138 | any sequence of requests keeps ids unique and the four-field rule |
| TrackProperties.RunWithoutPatchKeepsUnique3 | SimRacingDashboard.Api/Controllers/TrackController.cs:39-92 | any sequence of requests without patches keeps ids unique and the three-field rule |

## Left out

- The AES-256-CBC cipher, PKCS#7 padding, UTF-8 and Base64 are library code. They are the `Aes` pair of functions with two laws: decryption undoes encryption, and ciphertext is longer than plaintext. Failures of `Decrypt` on text that is not Base64 or not validly padded are whatever the `decrypt` function returns.
- Base64 decoding of the key and IV in the constructor is not modelled. `Create` takes the decoded bytes, so a key or an IV that is not Base64 (a `FormatException`) is not covered. Both are decoded before either length is checked, so in the program a key of the wrong length together with an IV that is not Base64 throws `FormatException`, not the key-length `ArgumentException` the model gives.
- `GenerateKeyAndIV` is not modelled: it is random key generation.
- JWT signing and serialisation are the `JwtHandler` pair of functions with a round-trip law. Not modelled:
  - the HMAC-SHA256 signature;
  - the signing key's length check inside `WriteToken`;
  - the UTF-8 to Base64 and back conversion of "Jwt:Key";
  - the payload's JSON shape. `Jwt.JwtHandler.Lawful` claims an exact round trip for every token, but the real writer groups claims of the same type into one array and drops an empty issuer, which then reads back as null. The tokens the core writes have six claims of distinct types, and an empty issuer is not considered.
- A token is its issuer, audience, claims and expiry. `ReadJwtToken` failing on malformed text is `SecurityTokenMalformedException`.
- The `jwtToken == null` check in `GetCurrentUserAsync` is not modelled. That branch cannot be reached, because `ReadJwtToken` throws instead of returning null.
- Auth.GenerateJwt: the empty-key failure is an `ArgumentException` with the library's message identifier, not its full text.
- ASP.NET Identity's password hashing (PBKDF2, format versions, rehash policy) is not modelled. It is a pair of functions with the law that a hash verifies the password it was made from, and the random salt is a parameter.
- Entity Framework, `async`/`await` and `SaveChanges` are not modelled. Each table is a sequence of rows, and a duplicate primary key on saving is `DbUpdateException`.
- Concurrent requests are not modelled.
- Tracked entities are values. The row found by `FindAsync` is copied out, changed and written back. Aliasing between the tracked object and the table is not modelled.
- A `Patch` answered with 409 saves nothing. The model leaves the table unchanged and does not keep the discarded tracked change.
- String comparison in the uniqueness queries is exact ordinal equality, which is what the PostgreSQL provider does by default. Case-insensitive collations are not modelled.
- `DateTime.UtcNow`, `Guid.NewGuid()` and the salt are parameters. A login reads the clock twice in the source (token expiry and `LastLoginAt`), and the model uses one `now` for both.
- Every `DateTime` is UTC and has a tick count; time zones and other `DateTime` kinds are not modelled.
- Guids.Parse: only the hyphenated "D" format is accepted. The "N", "B", "P" and "X" formats that `Guid.Parse` also accepts are not modelled, and neither is its trimming of leading and trailing white space: an id claim padded with spaces fails with `FormatException` in the model where the program finds the user. Nor is the lenient group syntax of the "D" parser: a group that starts with "+" or with "0x"/"0X" and keeps its length (such as "0x000000-0000-0000-0000-000000000000") is refused by the model and accepted by `Guid.Parse`. A forged, unverified token can carry such an id.
- Text.ToLowerInvariant: only Basic Latin and Latin-1 letters are lower-cased. Other Unicode case mappings are not modelled.
- Strings are sequences of Unicode scalar values. A C# string holding an unpaired surrogate is not modelled: `Encoding.UTF8.GetBytes` replaces it with U+FFFD, so such text would not come back from `Decrypt` unchanged, and `Encryption.Aes.Lawful` does not cover it.
- Times.ToUnixSeconds: the model's `exp` is the exact floor of the seconds since the epoch. `EpochTime.GetIntDate` truncates the double `TotalSeconds`, which is rounded once the ticks since the epoch exceed 2^53 (every instant after 1998). On the last ticks before a whole second the program's `exp` is then one higher: 16_999_999_999_999_999 ticks after the epoch give 1700000000 there and 1699999999 in the model. The contracts of `Auth.GenerateJwt` and `AuthProperties.LoginSucceeds` carry this value. Double rounding is not modelled.
- Times.FormatRoundTrip: only the length of the "o" form is stated as its contract. The digits are tied down only by `Times.DigitsValue` and the three calendar lemmas, not by a general statement that the date text reads back as the instant.
- Track lengths (`double`) are copied bit patterns with no arithmetic, so floating point is not modelled.
- Null values in non-nullable string fields (a JSON body with `"name": null`) are not modelled. Each such field is a string.
- A null body to `Post` is not modelled: the framework refuses it with 400 before the action runs.
- Model validation by the framework is not modelled.
- HTTP routing, status-code plumbing, cookies, the controllers other than `TrackController`, request validators, dependency injection, configuration loading and migrations are not modelled.
- The `TrackResponse` DTO is not modelled; it is not used by the modelled code.
- For `ApiResponse<T>` whose `T` is a value type, `default(T)` is a value, not null. The model writes missing data as `None`; every `T` the controllers use is a reference type.
