/** UserAuth: a password check against the stored hash. It only reads the store. */
module UserAuth {
  import opened Common
  import opened Crypto
  import opened Storage

  /** authenticate: true exactly when a hash is stored for the name and the
      password hashes to it; false when no hash is stored. */
  function Authenticate(t: Tables, dataDir: string, c: Suite, username: string, password: string): (ok: bool)
    ensures ok <==> Lookup(t, UsersFile(dataDir), Entry(username, PasswordHash)) == Some(c.hashPassword(password))
    ensures !HasUser(t, dataDir, username) ==> !ok
  {
    match Lookup(t, UsersFile(dataDir), Entry(username, PasswordHash))
    case None => false
    case Some(storedHash) => VerifyPassword(c, password, storedHash)
  }

  /** A user saved with the hash of a password logs in with that password. */
  lemma AuthenticateAfterSaveUser(t: Tables, dataDir: string, c: Suite, username: string, password: string,
                                  pub: string, priv: string)
    ensures Authenticate(WithUser(t, dataDir, username, c.hashPassword(password), pub, priv),
                         dataDir, c, username, password)
  {
    SaveUserReadBack(t, dataDir, username, c.hashPassword(password), pub, priv);
  }

  /** Saving one user does not change whether another can log in. */
  lemma AuthenticateOtherUserUnaffected(t: Tables, dataDir: string, c: Suite, username: string, hash: string,
                                        pub: string, priv: string, other: string, password: string)
    requires other != username
    ensures Authenticate(WithUser(t, dataDir, username, hash, pub, priv), dataDir, c, other, password)
         == Authenticate(t, dataDir, c, other, password)
  {
    SaveUserIsolation(t, dataDir, username, hash, pub, priv, other, PasswordHash);
  }

  /** Saving or deleting wrapped keys in either scope, and saving the system
      identity, never change who can log in. */
  lemma AuthenticateUnaffectedByKeys(t: Tables, dataDir: string, c: Suite, filename: string, value: string,
                                     owner: string, pub: string, priv: string, username: string, password: string)
    ensures Authenticate(Put(t, KeysFile(dataDir), filename, value), dataDir, c, username, password)
         == Authenticate(t, dataDir, c, username, password)
    ensures Authenticate(Remove(t, KeysFile(dataDir), filename), dataDir, c, username, password)
         == Authenticate(t, dataDir, c, username, password)
    ensures Authenticate(Put(t, PrivateKeysFile(dataDir, owner), filename, value), dataDir, c, username, password)
         == Authenticate(t, dataDir, c, username, password)
    ensures Authenticate(WithSystemKeys(t, dataDir, pub, priv), dataDir, c, username, password)
         == Authenticate(t, dataDir, c, username, password)
  {
    SharedFilesDistinct(dataDir);
    PrivateKeysFileIsolated(dataDir, owner);
    SystemEntries(username, PasswordHash);
  }
}
