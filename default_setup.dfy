/** DefaultSetup: the check-then-write that registers the default account at start-up. */
module DefaultSetup {
  import opened Common
  import opened Crypto
  import opened Storage
  import opened UserAuth

  const DefaultUsername := "usuario"
  const DefaultPassword := "1234"

  /** The tables after createDefaultUser: unchanged when the default user
      exists or key generation failed (the exception is caught); otherwise
      the default user is saved with the hash of the default password and the
      Base64 text of the generated pair, and no other entry changes. */
  function AfterDefaultSetup(t: Tables, dataDir: string, c: Suite, generated: Option<KeyPair>): (r: Tables)
    ensures HasUser(t, dataDir, DefaultUsername) || generated.None? ==> r == t
    ensures generated.Some? ==> HasUser(r, dataDir, DefaultUsername)
    ensures !HasUser(t, dataDir, DefaultUsername) && generated.Some? ==>
      && Lookup(r, UsersFile(dataDir), Entry(DefaultUsername, PasswordHash)) == Some(c.hashPassword(DefaultPassword))
      && Lookup(r, UsersFile(dataDir), Entry(DefaultUsername, PublicKey)) == Some(PublicKeyToBase64(c, generated.value.pub))
      && Lookup(r, UsersFile(dataDir), Entry(DefaultUsername, PrivateKeyEncrypted))
         == Some(PrivateKeyToBase64(c, generated.value.priv))
    ensures forall other, f :: other != DefaultUsername ==>
      Lookup(r, UsersFile(dataDir), Entry(other, f)) == Lookup(t, UsersFile(dataDir), Entry(other, f))
    ensures forall k :: k !in {Entry(DefaultUsername, PasswordHash), Entry(DefaultUsername, PublicKey),
                               Entry(DefaultUsername, PrivateKeyEncrypted)} ==>
      Lookup(r, UsersFile(dataDir), k) == Lookup(t, UsersFile(dataDir), k)
    ensures forall p, k :: p != UsersFile(dataDir) ==> Lookup(r, p, k) == Lookup(t, p, k)
  {
    if HasUser(t, dataDir, DefaultUsername) || generated.None? then t
    else
      var pub := PublicKeyToBase64(c, generated.value.pub);
      var priv := PrivateKeyToBase64(c, generated.value.priv);
      SaveUserReadBack(t, dataDir, DefaultUsername, c.hashPassword(DefaultPassword), pub, priv);
      SaveUserKeepsOthers(t, dataDir, DefaultUsername, c.hashPassword(DefaultPassword), pub, priv);
      WithUser(t, dataDir, DefaultUsername, c.hashPassword(DefaultPassword), pub, priv)
  }

  /** createDefaultUser */
  method CreateDefaultUser(store: LocalStorage, c: Suite, generated: Option<KeyPair>)
    modifies store
    ensures store.tables == AfterDefaultSetup(old(store.tables), store.dataDir, c, generated)
  {
    if store.UserExists(DefaultUsername) {
      return;
    }
    if generated.None? {
      return;
    }
    var publicKeyBase64 := PublicKeyToBase64(c, generated.value.pub);
    var privateKeyBase64 := PrivateKeyToBase64(c, generated.value.priv);
    var passwordHash := c.hashPassword(DefaultPassword);
    store.SaveUser(DefaultUsername, passwordHash, publicKeyBase64, privateKeyBase64);
  }

  /** Once a run has registered the default user, a second run changes nothing. */
  lemma DefaultSetupIdempotent(t: Tables, dataDir: string, c: Suite, first: Option<KeyPair>, second: Option<KeyPair>)
    requires first.Some? || HasUser(t, dataDir, DefaultUsername)
    ensures AfterDefaultSetup(AfterDefaultSetup(t, dataDir, c, first), dataDir, c, second)
         == AfterDefaultSetup(t, dataDir, c, first)
  {
    var once := AfterDefaultSetup(t, dataDir, c, first);
    assert HasUser(once, dataDir, DefaultUsername);
  }

  /** A default user created by the setup logs in with the default password. */
  lemma DefaultUserCanLogIn(t: Tables, dataDir: string, c: Suite, kp: KeyPair)
    requires !HasUser(t, dataDir, DefaultUsername)
    ensures Authenticate(AfterDefaultSetup(t, dataDir, c, Some(kp)), dataDir, c, DefaultUsername, DefaultPassword)
  {
    AuthenticateAfterSaveUser(t, dataDir, c, DefaultUsername, DefaultPassword,
                              PublicKeyToBase64(c, kp.pub), PrivateKeyToBase64(c, kp.priv));
  }
}
