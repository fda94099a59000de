# Key custody of a hybrid RSA+AES file encryptor, in Dafny

The Java program encrypts a user's files with a fresh AES key per file. It
wraps that key under an RSA public key and keeps the wrapped key in a
properties-file store. It has two scopes:

- **Public:** keys are wrapped under the installation's system identity and
  kept in `keys.properties`.
- **Private:** keys are wrapped under a registered user's identity and kept
  in that user's `private_keys_<user>.properties`.

This project models the bookkeeping around the keys, and not the cryptography:

- `local_storage.dfy` (`Storage`) models `LocalStorage`. Every properties file
  on disk is one map in `Tables` (path ↦ entries), and a missing file reads as
  empty. The class `LocalStorage` holds the tables and performs the
  load / set / save sequences as methods. Its getters are `reads` functions.
  Pure functions on `Tables` (`Put`, `Remove`, `WithUser`, `WithSystemKeys`)
  describe each update and carry the lemmas.
- `file_system.dfy` (`Files`) models the data files as a map from path to bytes.
  `Files.readAllBytes`, `Files.write` and `Files.delete` act on it.
- `crypto.dfy` (`Crypto`) holds AES, RSA, Base64, the key-spec parsers and
  `SimpleHash.hashPassword`. They are uninterpreted total functions in a
  `Suite`. Their round trips are the predicate `Sound`, which the lemmas take
  as a hypothesis.
- `file_encryption_util.dfy` (`EncryptionUtil`) models `FileEncryptionUtil`:
  - the key id, which strips one trailing `.enc`;
  - wrapping and unwrapping;
  - `getKey` / `getPrivateKey` with their not-found failure;
  - the destructive encrypt and decrypt sequences (write the output, remove the
    public key entry, delete the source).

  `StoreWrapped`, `EncryptedFiles` and `DecryptedFiles` give each sequence's
  effect as a function of the state before it. The methods are specified
  against them.
- `file_encryption_app.dfy` (`App`) models `FileEncryptionApp` without Swing:
  - the constructor's load-or-generate of the system identity;
  - the create-user handler;
  - the four encrypt/decrypt handlers once the file has been chosen and the
    name typed, including the trimmed-name registered-user gate and how output
    names and key ids are derived.

  The chosen file, the typed text and freshly generated keys are parameters.
- `user_auth.dfy` (`UserAuth`) models `authenticate`. `default_setup.dfy`
  (`DefaultSetup`) models `createDefaultUser`.
- `scenarios.dfy` (`Scenarios`) chains operations: two start-ups, and a
  public and a private encrypt-then-decrypt round trip.
- `strings.dfy` (`Strings`) holds the parts of `String` and `File` that name
  derivation relies on: `trim`, `getName`, `replace(".enc", "")`, and joining
  a directory and a name.

Failures that Java throws are values: `Result`, `Outcome` and `Failure` in
`common.dfy`.

The model keeps these behaviours of the code as written:

- Both decrypting handlers end in `decryptFile`, which removes the entry from
  the public map. Private decryption therefore never removes the user's own
  entry. If a public entry of the same name exists, private decryption removes
  it.
- `decryptFilePrivate` in the utility class fetches its key from the public
  map.
- The decrypted output drops every occurrence of `.enc` from the path, while
  the key id strips only one trailing `.enc`.
- Saving a user called `system` overwrites `system.public_key`.
- The per-user map's path has no separator after the data directory.
- Public and private encryption delete the source before the key is saved.
  Each of these failures therefore leaves a ciphertext whose key was never
  stored:
  - the system identity is missing;
  - the user's public key cannot be read;
  - the RSA wrap fails.

## Model

| member | source | states |
|---|---|---|
| Storage.Put | LocalStorage.java:86-90 | after a load / setProperty / save the entry reads back as the new value, replacing any earlier value, and every other entry of every file reads as before |
| Storage.Remove | LocalStorage.java:103-107 | after a load / remove / save the entry reads as absent and every other entry reads as before; removing an absent entry leaves the loaded map equal |
| Storage.Load | LocalStorage.java:126-135 | a file that does not exist loads as the empty map |
| Storage.Lookup | LocalStorage.java:95-98 | getProperty after a load is present exactly when the loaded map has the key, and is then the stored value |
| Storage.WithUser | LocalStorage.java:51-57 | saveUser writes the users map only: every entry of every other file reads as before |
| Storage.WithSystemKeys | LocalStorage.java:146-151 | saveSystemRSAKeys stores the private half under `system.private_key` and writes the users map only |
| Storage.HasUser | LocalStorage.java:112-115 | userExists is true exactly when the users map holds the `<name>.password_hash` entry |
| Storage.HasAdmin | LocalStorage.java:120-123 | adminExists is true exactly when the admins map holds the `<name>.password_hash` entry |
| Storage.HasSystemKeys | LocalStorage.java:172-176 | systemKeysExist is true exactly when the users map holds both `system.public_key` and `system.private_key` |
| Storage.MissingFileReadsAbsent | LocalStorage.java:126-135 | when a properties file does not exist, loading it gives the empty map and every key of it reads as absent |
| Storage.EntryInjective | LocalStorage.java:53-55 | two account entry names coincide only for the same user and the same field |
| Storage.SystemEntries | LocalStorage.java:146-151 | `system.public_key` is the public-key entry of a user called `system` and of no other account entry; `system.private_key` is no account entry |
| Storage.PrivateKeysFileInjective | LocalStorage.java:182 | different usernames give different per-user map paths |
| Storage.PrivateKeysFileIsolated | LocalStorage.java:181-186 | no per-user map path equals the public key map, the users map or the admins map |
| Storage.SharedFilesDistinct | LocalStorage.java:12-15 | the keys, users and admins files are three different paths |
| Storage.AccountReadBack | LocalStorage.java:32-38 | after an account is saved, its hash, public key and private key read back as saved |
| Storage.AccountIsolation | LocalStorage.java:51-57 | saving an account changes no entry of another account, and no entry of another file |
| Storage.SaveUserReadBack | LocalStorage.java:51-81 | after saveUser, userExists holds and the three getters return the saved hash, public key and private key |
| Storage.SaveUserIsolation | LocalStorage.java:51-57 | saveUser(u) leaves every entry of every other user, and whether that user exists, unchanged |
| Storage.SaveUserKeepsOthers | LocalStorage.java:51-57 | saveUser(u) changes no entry of any user other than u |
| Storage.SaveUserSystemCollision | LocalStorage.java:51-57 | saveUser replaces `system.public_key` exactly when the username is `system`, and never changes `system.private_key` |
| Storage.SaveSystemKeysReadBack | LocalStorage.java:146-176 | after saveSystemRSAKeys both halves read back as saved and systemKeysExist holds |
| Storage.SavePrivateKeyIsolation | LocalStorage.java:181-195 | a per-user key write changes nothing that another user's map, the public key map or the users map returns |
| Storage.LocalStorage.constructor | LocalStorage.java:12 | the store's data directory is user.home + `/Documents/cs/data`, over the tables found on disk |
| Storage.LocalStorage.SaveProperties | LocalStorage.java:137-141 | the file at the path now holds exactly the given map |
| Storage.LocalStorage.SaveAdmin | LocalStorage.java:32-38 | the admins map gains the three entries of the account and adminExists holds |
| Storage.LocalStorage.GetAdminPasswordHash | LocalStorage.java:43-46 | present exactly when the admins file exists and holds `<name>.password_hash`; then it is the stored value |
| Storage.LocalStorage.AdminExists | LocalStorage.java:120-123 | true exactly when getAdminPasswordHash is non-null |
| Storage.LocalStorage.SaveUser | LocalStorage.java:51-57 | the users map gains the three entries; userExists holds and the getters return the saved values |
| Storage.LocalStorage.GetUserPasswordHash | LocalStorage.java:62-65 | present exactly when the users file exists and holds `<name>.password_hash`; then it is the stored value |
| Storage.LocalStorage.GetUserPublicKey | LocalStorage.java:70-73 | present exactly when the users file exists and holds `<name>.public_key`; then it is the stored value |
| Storage.LocalStorage.GetUserPrivateKey | LocalStorage.java:78-81 | present exactly when the users file exists and holds `<name>.private_key_encrypted`; then it is the stored value |
| Storage.LocalStorage.UserExists | LocalStorage.java:112-115 | true exactly when getUserPasswordHash is non-null |
| Storage.LocalStorage.SaveKey | LocalStorage.java:86-90 | getKey(f) returns the wrapped key and every other filename's entry is as before |
| Storage.LocalStorage.GetKey | LocalStorage.java:95-98 | present exactly when the keys file exists and holds the filename; then it is the stored wrapped key |
| Storage.LocalStorage.DeleteKey | LocalStorage.java:103-107 | getKey(f) is absent and every other filename's entry is as before |
| Storage.LocalStorage.SaveSystemRSAKeys | LocalStorage.java:146-151 | both halves are written in one update of the users map; systemKeysExist holds and both getters return them |
| Storage.LocalStorage.GetSystemPublicKey | LocalStorage.java:156-159 | present exactly when the users file exists and holds `system.public_key`; then it is the stored value |
| Storage.LocalStorage.GetSystemPrivateKey | LocalStorage.java:164-167 | present exactly when the users file exists and holds `system.private_key`; then it is the stored value |
| Storage.LocalStorage.SystemKeysExist | LocalStorage.java:172-176 | true exactly when both system getters are non-null |
| Storage.LocalStorage.SavePrivateKey | LocalStorage.java:181-186 | getPrivateKey(u, f) returns the wrapped key; the public map and every other user's map read as before |
| Storage.LocalStorage.GetPrivateKey | LocalStorage.java:191-195 | present exactly when the user's own keys file exists and holds the filename; then it is the stored wrapped key |
| Crypto.Base64ToPublicKey | RSAUtil.java:130-135 | a key is returned exactly when the text decodes and the X.509 key spec accepts the bytes, and it is those bytes |
| Crypto.Base64ToPrivateKey | RSAUtil.java:150-155 | a key is returned exactly when the text decodes and the PKCS#8 key spec accepts the bytes, and it is those bytes |
| Crypto.Base64ToKeyPair | RSAUtil.java:171-175 | a pair is returned exactly when both halves decode, and it is the pair of the two decoded keys; the halves are not checked against each other |
| Crypto.PublicKeyToBase64 | RSAUtil.java:98-100 | the Base64 text of a public key decodes back to that key |
| Crypto.PrivateKeyToBase64 | RSAUtil.java:113-115 | the Base64 text of a private key decodes back to that key |
| Crypto.KeyPairBase64RoundTrip | RSAUtil.java:98-115 | a pair written with the two ...ToBase64 functions reads back as the same pair |
| Strings.TrimStart | FileEncryptionApp.java:401 | the result is the longest suffix that does not start with a character at or below U+0020 |
| Strings.TrimEnd | FileEncryptionApp.java:401 | the result is the longest prefix that does not end with a character at or below U+0020 |
| Strings.TrimmedSlice | FileEncryptionApp.java:401 | a prefix of a suffix of the text, cut only at white space, is the slice where the suffix starts, with white space around it |
| Strings.TrimBlank | FileEncryptionApp.java:401 | a slice with only white space around it that does not start with white space is empty exactly when the whole text is white space |
| Strings.Trim | FileEncryptionApp.java:276 | the trimmed name is a contiguous slice of the text with only characters at or below U+0020 before and after it; it is empty exactly when every character is one of those, and otherwise starts and ends with a character above U+0020 |
| Strings.Name | FileEncryptionApp.java:368 | the last component of a path contains no separator, ends the path, and is preceded by a separator unless it is the whole path |
| Strings.DropTrailingSeparators | FileEncryptionApp.java:479 | java.io.File drops trailing separators: the result is a prefix of the path that does not end in a separator, and only separators were removed |
| Strings.FileName | FileEncryptionApp.java:482 | File.getName is separator-free, equals the last component when the path does not end in a separator, and is empty only for a path made of separators |
| Strings.NameOfJoin | FileEncryptionApp.java:423 | the last component of a directory joined with a separator-free name is that name |
| Strings.FileNameOfJoin | FileEncryptionApp.java:423 | File.getName of a directory joined with a non-empty separator-free name is that name |
| Strings.FileNameOfDirectory | FileEncryptionApp.java:479 | File.getName of a directory path followed by a separator is the directory's own name |
| Strings.JoinStartsWith | FileEncryptionApp.java:423 | a path joined from a directory and a name starts with the directory followed by a separator |
| Strings.RemoveAll | FileEncryptionApp.java:479 | replace(".enc", "") never makes the path longer |
| Strings.RemoveAllAbsent | FileEncryptionApp.java:479 | replace(".enc", "") leaves a path without `.enc` unchanged |
| Strings.RemoveEncThenRest | FileEncryptionApp.java:479 | replace(".enc", "") keeps a `.enc`-free prefix, drops the `.enc` after it, and continues in the rest |
| Strings.RemoveEncTwice | FileEncryptionApp.java:479 | replace(".enc", "") on p + `.enc` + b + `.enc`, with no `.enc` in p or b, gives p + b |
| Files.FileSystem.constructor | FileEncryptionUtil.java:81 | the file system holds the files on disk under the given user.home |
| Files.FileSystem.ReadAllBytes | FileEncryptionUtil.java:65 | reading succeeds exactly when the file exists, with its contents; otherwise it fails naming the path |
| Files.FileSystem.Write | FileEncryptionUtil.java:74 | the path now holds the bytes and no other file changes |
| Files.FileSystem.Delete | FileEncryptionUtil.java:76 | the path is gone and no other file changes |
| EncryptionUtil.KeyId | FileEncryptionUtil.java:38 | a name ending in `.enc` maps to the id that, followed by `.enc`, gives the name; any other name maps to itself |
| EncryptionUtil.KeyIdOfEncrypted | FileEncryptionUtil.java:56 | stripping the suffix from n + `.enc` gives n back |
| EncryptionUtil.WrapKey | FileEncryptionUtil.java:27-30 | a wrapped text exists exactly when RSA encryption succeeds, and it Base64-decodes to the RSA ciphertext |
| EncryptionUtil.UnwrapKey | FileEncryptionUtil.java:45-47 | unwrapping succeeds exactly when the text decodes, RSA decryption succeeds and the key is non-empty, and returns the decrypted bytes; bad Base64 fails as malformed |
| EncryptionUtil.UnwrapWrapped | FileEncryptionUtil.java:27-47 | a non-empty AES key wrapped under a public key unwraps to itself under the matching private key |
| EncryptionUtil.GetKey | FileEncryptionUtil.java:36-52 | fails with not-found naming the file exactly when the public map has no entry for the key id; when it has one, the result is that entry unwrapped, failures of the unwrap included |
| EncryptionUtil.GetPrivateKey | FileEncryptionUtil.java:174-189 | the same lookup in the named user's map only: not-found exactly when that map lacks the key id, otherwise the entry unwrapped |
| EncryptionUtil.SaveKeyThenGetKey | FileEncryptionUtil.java:25-52 | saveKey(n, k, pub) followed by getKey(n + `.enc`, priv) for the matching pair returns k |
| EncryptionUtil.SavePrivateKeyThenGetPrivateKey | FileEncryptionUtil.java:165-189 | savePrivateKey(u, n, k, pub) followed by getPrivateKey(u, n + `.enc`, priv) returns k |
| EncryptionUtil.PrivateKeyInvisibleElsewhere | FileEncryptionUtil.java:174-189 | a key saved in one user's scope changes what getPrivateKey returns for no other user and what getKey returns for no file |
| EncryptionUtil.PublicKeyInvisibleToUsers | FileEncryptionUtil.java:174-189 | a key saved in the public scope changes what getPrivateKey returns for no user |
| EncryptionUtil.StoreWrapped | FileEncryptionUtil.java:25-34 | a failed wrap stores nothing; otherwise the entry is present and every other entry of every file is unchanged |
| EncryptionUtil.StoreWrappedUnwraps | FileEncryptionUtil.java:25-52 | what was stored unwraps to the key under the matching private key |
| EncryptionUtil.EncryptedFiles | FileEncryptionUtil.java:61-77 | a missing input or a cipher failure changes nothing; on success the input is gone, the output decrypts to the input's contents, and every other file is untouched |
| EncryptionUtil.DecryptedFiles | FileEncryptionUtil.java:102-120 | a missing input or a cipher failure changes nothing; on success the destination holds the decryption of the input, the input is gone, and every other file is untouched |
| EncryptionUtil.DecryptEncrypted | FileEncryptionUtil.java:61-120 | a file encrypted and then decrypted under the same key comes back with its original contents, and the ciphertext is gone |
| EncryptionUtil.SaveKey | FileEncryptionUtil.java:25-34 | on a failed wrap the store is unchanged and the failure is reported; otherwise the store is StoreWrapped on the public map |
| EncryptionUtil.DeleteKey | FileEncryptionUtil.java:55-58 | the public entry of the name's key id is removed |
| EncryptionUtil.SavePrivateKey | FileEncryptionUtil.java:165-169 | as SaveKey, in the user's map only |
| EncryptionUtil.SaveAdmin | FileEncryptionUtil.java:153-158 | the admin is saved with the Base64 public key and the Base64 encrypted private key, and adminExists holds |
| EncryptionUtil.EncryptFile | FileEncryptionUtil.java:61-77 | the files become EncryptedFiles of the old files; on failure nothing changes |
| EncryptionUtil.EncryptFilePrivate | FileEncryptionUtil.java:80-99 | as EncryptFile, with the ciphertext at the output's name in the user's private directory |
| EncryptionUtil.DecryptInto | FileEncryptionUtil.java:102-120 | a failed read or decryption changes nothing; an output name of `""`, `.` or `..` makes the write target the directory itself or its parent, which fails and changes nothing; otherwise the plaintext is written under the name, the public entry of the input's key id is removed and the input is deleted |
| EncryptionUtil.DecryptFile | FileEncryptionUtil.java:102-120 | on success the plaintext is in the fixed decrypted directory under the output's name, the public entry of the input's key id is removed, and the input is deleted; a failed read or decryption, or an output name of `""`, `.` or `..` (the directory itself or its parent), changes nothing |
| EncryptionUtil.DecryptFilePrivate | FileEncryptionUtil.java:122-150 | the key comes from the public map; on success the plaintext is in the user's private decrypted directory and the public entry is removed; a missing key, a failed decryption or an output name of `""`, `.` or `..` changes nothing |
| App.StoredPublicKey | FileEncryptionApp.java:429-430 | a missing public key fails as a null dereference; stored text gives a key exactly when it decodes to a valid public key, which is then its decoding, and fails as malformed otherwise |
| App.StoredPrivateKey | FileEncryptionApp.java:549-550 | a missing private key fails as a null dereference; stored text gives a key exactly when it decodes to a valid private key, which is then its decoding, and fails as malformed otherwise |
| App.PublicOutput | FileEncryptionApp.java:368 | the public ciphertext lies in the public directory and is named after the input plus `.enc` |
| App.PrivateOutput | FileEncryptionApp.java:419-423 | the private ciphertext lies in the user's private directory and is named after the input plus `.enc` |
| App.DecryptedPath | FileEncryptionApp.java:479 | the decrypted path is never longer than the ciphertext path, and equals it when the path holds no `.enc` |
| App.RemoveEncAbsent | FileEncryptionApp.java:479 | replace(".enc", "") leaves a path without `.enc` as it is |
| App.DecryptedNameNonEmpty | FileEncryptionApp.java:479-483 | every public or private ciphertext path the handlers write has a non-empty decrypted name, so the write never targets the directory through an empty name; `.` and `..` remain possible |
| App.DotEncDecryptsToDot | FileEncryptionApp.java:479-483 | a file named `..enc` has its key found under `..enc`, but its decrypted name is `.`, which names the decrypted directory itself |
| App.DocumentsInDirs | FileEncryptionApp.java:419 | both encrypted directories hold the `D` of `Documents` just after the home directory |
| App.JoinKeeps | FileEncryptionApp.java:423 | a path joined from a directory and a name keeps the directory's characters in place |
| App.KeepsSeparatorFreeChar | FileEncryptionApp.java:479 | a path holding a `D` keeps it through replace(".enc", ""), so its decrypted name is not empty |
| App.OutputKeyId | FileEncryptionApp.java:368-373 | the ciphertext is named after the input plus `.enc`, its key id is the input's name under which the key was saved, and it is not the input |
| App.DecryptedNameOfOutput | FileEncryptionApp.java:479 | when the name is non-empty and the path holds no other `.enc`, the decrypted output has the original name |
| App.InnerEncLostOnDecrypt | FileEncryptionApp.java:479-482 | a file named a + `.enc` + b (not both empty) has its key found under its own name, but decrypts to the name a + b |
| App.DecryptedNameDropsInnerEnc | FileEncryptionApp.java:479 | the decrypted name of a + `.enc` + b + `.enc` is a + b |
| App.EncNamedFileDecryptsToDirName | FileEncryptionApp.java:479-482 | a file named `.enc` has its key found under `.enc`, but its plaintext is written under the name `encriptado` of the public directory |
| App.DecryptedNameOfEncEnc | FileEncryptionApp.java:479 | the decrypted name of `.enc.enc` in the public directory is `encriptado` |
| App.DecryptedNameIsDirName | FileEncryptionApp.java:479 | the decrypted name of `.enc.enc` in any directory without `.enc` is that directory's own name |
| App.DecryptedPathOfEncEnc | FileEncryptionApp.java:479 | replace(".enc", "") turns dir/`.enc.enc` into the directory followed by a separator |
| App.PublicDirName | FileEncryptionApp.java:364 | the public directory is named `encriptado` and does not end in a separator |
| App.DecryptedDirApart | FileEncryptionApp.java:364-368 | no decrypted output path equals a public or private ciphertext path |
| App.PrivateOutputUnder | FileEncryptionApp.java:523-531 | a user's private ciphertext makes the user's private directory non-empty, so the handler's emptiness check passes |
| App.RestartLoadsSavedIdentity | FileEncryptionApp.java:14-27 | the identity saved at first start-up is present and decodes to the same pair at the next start-up |
| App.StoredKeysOfCreatedUser | FileEncryptionApp.java:289-296 | the keys a user is created with read back as that user's key pair |
| App.FileEncryptionApp.constructor | FileEncryptionApp.java:11-32 | with both system halves stored it loads them and writes nothing; otherwise it keeps the generated pair and stores both halves in one update; a failed generation leaves the identity unset and the store unchanged |
| App.FileEncryptionApp.EncryptFilePublic | FileEncryptionApp.java:355-391 | the input is encrypted to its name plus `.enc` in the public directory; only then is the key wrapped under the system public key and saved under the input's name. A missing identity or a failed wrap leaves the ciphertext without a key |
| App.FileEncryptionApp.SaveKeyWithIdentity | FileEncryptionApp.java:371-373 | without a system identity the handler fails and nothing changes; otherwise the key is wrapped under the system public key and saved in the public map, and a failed wrap changes nothing |
| App.FileEncryptionApp.EncryptForUser | FileEncryptionApp.java:419-431 | the file is encrypted into the user's private directory; only then is the key saved under the user's stored public key; an encryption failure changes nothing |
| App.FileEncryptionApp.SaveKeyForUser | FileEncryptionApp.java:428-431 | a missing or malformed stored public key fails and changes nothing; otherwise the wrapped key is saved in the user's map, and a failed wrap changes nothing |
| App.FileEncryptionApp.EncryptFilePrivate | FileEncryptionApp.java:394-451 | a blank or unregistered trimmed name changes nothing; otherwise the file is encrypted into the user's private directory, then the key is wrapped under the user's public key and saved in the user's map |
| App.FileEncryptionApp.DecryptFilePublic | FileEncryptionApp.java:454-503 | the key is fetched from the public map and unwrapped with the system private key; on success the plaintext is written under File.getName of the path with every `.enc` removed, and the public entry and the ciphertext are removed; any failure, including a decrypted name of `""`, `.` or `..`, changes nothing |
| App.FileEncryptionApp.DecryptFilePrivate | FileEncryptionApp.java:506-574 | behind the registered-user gate and the empty-directory check, the key is fetched from the user's map with the user's private key; the public entry is removed, not the user's; any failure, including a decrypted name of `""`, `.` or `..`, changes nothing |
| App.FileEncryptionApp.CreateUser | FileEncryptionApp.java:275-321 | a blank name or password, an existing user or a failed generation writes nothing; otherwise the user is saved with the password's hash and the Base64 keys, and userExists holds |
| UserAuth.Authenticate | UserAuth.java:31-41 | true exactly when a hash is stored for the name and the password hashes to it; false when none is stored |
| UserAuth.AuthenticateAfterSaveUser | UserAuth.java:33-35 | a user saved with the hash of a password authenticates with that password |
| UserAuth.AuthenticateOtherUserUnaffected | UserAuth.java:33-35 | saving one user does not change whether another user authenticates |
| UserAuth.AuthenticateUnaffectedByKeys | UserAuth.java:31-41 | saving or deleting wrapped keys in either scope, or saving the system identity, does not change who authenticates |
| DefaultSetup.AfterDefaultSetup | DefaultSetup.java:9-42 | the store is unchanged when `usuario` exists or generation failed; otherwise `usuario` is stored with the hash of `1234` and the Base64 halves of the generated pair; every users-map entry other than `usuario`'s three is unchanged, as is every other file |
| DefaultSetup.CreateDefaultUser | DefaultSetup.java:9-42 | the store becomes AfterDefaultSetup of the old store |
| DefaultSetup.DefaultSetupIdempotent | DefaultSetup.java:12-31 | once a run has registered `usuario`, a second run changes nothing |
| DefaultSetup.DefaultUserCanLogIn | DefaultSetup.java:27-31 | the default user authenticates with the password `1234` |
| Scenarios.StartTwice | FileEncryptionApp.java:11-32 | the first start-up generates and stores the identity; the second loads the same identity, whatever it would have generated |
| Scenarios.PublicRoundTrip | FileEncryptionApp.java:364-483 | after a successful public encryption, decryption succeeds unless the decrypted name is `""`, `.` or `..`; then the original contents are in the decrypted directory, the ciphertext is gone and no public entry remains. For those names decryption fails as a write onto a directory, and the ciphertext and its public entry stay |
| Scenarios.PrivateRoundTrip | FileEncryptionApp.java:419-552 | after creating a user and a successful private encryption, decryption succeeds unless the decrypted name is `""`, `.` or `..`; then the contents come back and the ciphertext is gone, and no public entry of that name remains. For those names decryption fails and the ciphertext stays. The user's entry remains either way |
| Scenarios.DecryptOwnFile | FileEncryptionApp.java:545-552 | a user decrypts their own private ciphertext: unless the decrypted name is `""`, `.` or `..`, the contents come back and only the public entry of the name is removed; for those names the write fails and nothing changes |
| Scenarios.UserScopeAfterSave | FileEncryptionApp.java:429-431 | after a key is saved in a user's scope the user keeps the same registration and private key, and the key is found for the ciphertext's name |

## Left out

- The Swing interface is left out: windows, dialogs, file choosers, status labels and the view-keys button. So are LoginDialog, RoundedBorder and the web page. None of them change the store or the files beyond the handlers modelled here.
- Key generation (`generateKey`, `generateKeyPair`) and the user's choices become parameters. Randomness and interaction are outside the model.
- AES, RSA, Base64, the X.509 / PKCS#8 key specs and SHA-256 are uninterpreted functions. Only their round trips are assumed, through `Sound`.
- `listAllKeys` and `listPrivateKeys` are left out. They only print to the console.
- The byte format of properties files is left out, as are I/O failures when loading or saving them. The store's state is the parsed maps, and reading and writing them always succeeds.
- Directories are left out: `mkdirs`, the static initialiser that creates the data directory, and directory existence. The only directory targets refused are the decryption writes under a name of `""`, `.` or `..`, which name the output directory or its parent, both existing after `mkdirs`. Any other path may be written, including one naming a directory in Java.
- App.FileEncryptionApp.DecryptFilePublic: the check that the public directory exists is not modelled, because directories are not modelled.
- App.FileEncryptionApp.DecryptFilePrivate: the "no private files" check approximates `listFiles().length == 0` by "no file lies anywhere below the user's directory". Empty subdirectories, which `listFiles` would count, do not exist in the model.
- EncryptionUtil.EncryptedFiles: the Java cipher is initialised before the input is read, so an unusable key is reported before a missing input. The model folds an unusable key into the cipher failure after the read. The state is unchanged in both cases.
- EncryptionUtil.DecryptedFiles: the same ordering holds for decryption (FileEncryptionUtil.java:103-106). An unusable key is reported after the missing input here, with the state unchanged either way.
- EncryptionUtil.UnwrapKey: the only key-spec refusal modelled is an empty key. Other bad AES keys surface as a cipher failure when the key is used.
- `Files.delete` failing after the output was written is not modelled. The file system accepts every delete.
- UserAuth.Authenticate: the exception path (an I/O error or a failing hash) is not modelled. I/O and hashing never fail here, so the catch branch cannot be reached.
- DefaultSetup.DefaultSetupIdempotent: it holds only if the first run registered the user or found it. A first run whose key generation failed writes nothing, so a second run may still write.
- Admin accounts are modelled only as far as the core uses them: `saveAdmin`, `getAdminPasswordHash` and `adminExists`. No handler reads them.
- Concurrent use of the properties files is not modelled. The program runs one handler at a time.
- `user.home` is a parameter: the `home` of the file system and of the store's data directory.
- The properties files and the user's data files share one disk in Java but are two separate maps here. Choosing `keys.properties` or `users.properties` itself as the file to encrypt is therefore not modelled.
- Paths are compared as strings. java.io.File and Paths.get collapse doubled separators and drop trailing ones in the whole path; the model applies that only to File.getName. Two spellings of one file are two files here.
- App.FileEncryptionApp.EncryptFilePrivate: a trimmed username containing a separator (leading, trailing or doubled) names a different directory in Java than in the model, for the reason above.
- App.FileEncryptionApp.DecryptFilePrivate: the same holds for the user's private directory and the private decrypted directory.
