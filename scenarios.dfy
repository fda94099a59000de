/** Whole sequences of the application's operations, as a user would drive
    them, with what each sequence is guaranteed to leave behind. */
module Scenarios {
  import opened Common
  import opened Strings
  import opened Crypto
  import opened Storage
  import opened Files
  import opened EncryptionUtil
  import opened App

  /** The first start generates and stores the system identity; a later
      start loads the same identity, whatever it would have generated. */
  method StartTwice(store: LocalStorage, fs: FileSystem, c: Suite, kp: KeyPair, later: Option<KeyPair>)
    returns (first: FileEncryptionApp, second: FileEncryptionApp)
    requires Sound(c) && c.isKeyPair(kp.pub, kp.priv) && !store.SystemKeysExist()
    modifies store
    ensures first.rsaKeyPair == Some(kp) && second.rsaKeyPair == Some(kp)
    ensures store.tables == WithSystemKeys(old(store.tables), store.dataDir,
                                           PublicKeyToBase64(c, kp.pub), PrivateKeyToBase64(c, kp.priv))
  {
    first := new FileEncryptionApp(store, fs, c, Some(kp));
    RestartLoadsSavedIdentity(c, old(store.tables), store.dataDir, kp);
    second := new FileEncryptionApp(store, fs, c, later);
  }

  /** Encrypting a file publicly and then decrypting the ciphertext restores
      its contents in the decrypted directory, deletes the ciphertext and
      removes the public key entry, unless the decrypted name is "", "." or
      "..": then the write is refused and the ciphertext and its key stay. */
  method PublicRoundTrip(app: FileEncryptionApp, input: string, key: Bytes) returns (encrypted: Outcome, decrypted: Outcome)
    requires Sound(app.crypto) && app.rsaKeyPair.Some? && key != []
    requires app.crypto.isKeyPair(app.rsaKeyPair.value.pub, app.rsaKeyPair.value.priv)
    modifies app.store, app.fs
    ensures encrypted == Pass ==>
      var out := PublicOutput(app.fs.home, input);
      var name := FileName(DecryptedPath(out));
      var dest := Join(DecryptedDir(app.fs.home), name);
      && input in old(app.fs.files)
      && (!ResolvesToDirectory(name) ==>
            && decrypted == Pass
            && dest in app.fs.files && app.fs.files[dest] == old(app.fs.files)[input]
            && out !in app.fs.files
            && app.store.GetKey(FileName(input)) == None)
      && (ResolvesToDirectory(name) ==>
            && decrypted == Fail(IsDirectory(DecryptedDir(app.fs.home)))
            && out in app.fs.files
            && app.store.GetKey(FileName(input)).Some?)
  {
    var home := app.fs.home;
    var c := app.crypto;
    var kp := app.rsaKeyPair.value;
    ghost var files0 := app.fs.files;
    ghost var tables0 := app.store.tables;
    encrypted := app.EncryptFilePublic(input, key);
    if encrypted != Pass {
      decrypted := encrypted;
      return;
    }
    var out := PublicOutput(home, input);
    ghost var saved := StoreWrapped(c, tables0, KeysFile(app.store.dataDir), FileName(input), key, kp.pub);
    ghost var moved := EncryptedFiles(c, files0, input, out, key);
    assert saved.Ok? && app.store.tables == saved.value;
    assert moved.Ok? && app.fs.files == moved.value;
    OutputKeyId(PublicEncryptedDir(home), input);
    SaveKeyThenGetKey(tables0, app.store.dataDir, c, FileName(input), key, kp.pub, kp.priv);
    assert GetKey(app.store.tables, app.store.dataDir, c, FileName(out), kp.priv) == Ok(key);
    ghost var dest := Join(DecryptedDir(home), FileName(DecryptedPath(out)));
    DecryptedDirApart(home, "", FileName(DecryptedPath(out)), FileName(input) + EncSuffix);
    DecryptEncrypted(c, files0, input, out, key, dest);
    decrypted := app.DecryptFilePublic(out);
  }

  /** A new user is created; a file encrypted privately for that user is
      decrypted by that user. The contents come back, the ciphertext is
      deleted, the user's own key entry is never removed, and the public
      entry under the same name is removed instead. A decrypted name "", "."
      or ".." makes the write fail, and the ciphertext stays. */
  method PrivateRoundTrip(app: FileEncryptionApp, username: string, password: string, kp: KeyPair,
                          input: string, key: Bytes)
    returns (created: Outcome, encrypted: Outcome, decrypted: Outcome)
    requires Sound(app.crypto) && app.crypto.isKeyPair(kp.pub, kp.priv) && key != []
    requires Trim(username) != [] && password != [] && !app.store.UserExists(Trim(username))
    modifies app.store, app.fs
    ensures created == Pass
    ensures encrypted == Pass ==>
      var u := Trim(username);
      var out := PrivateOutput(app.fs.home, u, input);
      var name := FileName(DecryptedPath(out));
      var dest := Join(DecryptedDir(app.fs.home), name);
      && input in old(app.fs.files)
      && app.store.GetPrivateKey(u, FileName(input)).Some?
      && (!ResolvesToDirectory(name) ==>
            && decrypted == Pass
            && dest in app.fs.files && app.fs.files[dest] == old(app.fs.files)[input]
            && out !in app.fs.files
            && app.store.GetKey(FileName(input)) == None)
      && (ResolvesToDirectory(name) ==>
            && decrypted == Fail(IsDirectory(DecryptedDir(app.fs.home)))
            && out in app.fs.files)
  {
    var home := app.fs.home;
    var c := app.crypto;
    var dataDir := app.store.dataDir;
    var u := Trim(username);
    created := app.CreateUser(username, password, Some(kp));
    ghost var files1 := app.fs.files;
    ghost var tables1 := app.store.tables;
    StoredKeysOfCreatedUser(c, old(app.store.tables), dataDir, u, c.hashPassword(password), kp);
    assert StoredPublicKey(c, app.store.GetUserPublicKey(u)) == Ok(kp.pub);
    encrypted := app.EncryptFilePrivate(username, input, key);
    if encrypted != Pass {
      decrypted := encrypted;
      return;
    }
    var out := PrivateOutput(home, u, input);
    ghost var saved := StoreWrapped(c, tables1, PrivateKeysFile(dataDir, u), FileName(input), key, kp.pub);
    ghost var moved := EncryptedFiles(c, files1, input, out, key);
    assert saved.Ok? && app.store.tables == saved.value;
    assert moved.Ok? && app.fs.files == moved.value;
    UserScopeAfterSave(c, tables1, dataDir, u, FileName(input), key, kp);
    OutputKeyId(PrivateEncryptedDir(home, u), input);
    decrypted := DecryptOwnFile(app, username, input, key, kp, files1);
    PrivateKeysFileIsolated(dataDir, u);
    assert Lookup(app.store.tables, PrivateKeysFile(dataDir, u), FileName(input))
        == Lookup(saved.value, PrivateKeysFile(dataDir, u), FileName(input));
  }

  /** The second half of PrivateRoundTrip: the user decrypts the private
      ciphertext of `input`, whose key is in the user's scope. */
  method DecryptOwnFile(app: FileEncryptionApp, username: string, input: string, key: Bytes, kp: KeyPair,
                        ghost before: map<string, Bytes>) returns (decrypted: Outcome)
    requires Sound(app.crypto) && Trim(username) != [] && app.store.UserExists(Trim(username))
    requires StoredPrivateKey(app.crypto, app.store.GetUserPrivateKey(Trim(username))) == Ok(kp.priv)
    requires var out := PrivateOutput(app.fs.home, Trim(username), input);
      && FileName(out) == FileName(input) + EncSuffix && out != input
      && EncryptionUtil.GetPrivateKey(app.store.tables, app.store.dataDir, app.crypto, Trim(username),
                                      FileName(out), kp.priv) == Ok(key)
      && EncryptedFiles(app.crypto, before, input, out, key).Ok?
      && app.fs.files == EncryptedFiles(app.crypto, before, input, out, key).value
    modifies app.store, app.fs
    ensures var out := PrivateOutput(app.fs.home, Trim(username), input);
      var name := FileName(DecryptedPath(out));
      var dest := Join(DecryptedDir(app.fs.home), name);
      && input in before
      && (!ResolvesToDirectory(name) ==>
            && decrypted == Pass
            && dest in app.fs.files && app.fs.files[dest] == before[input]
            && out !in app.fs.files
            && app.store.tables == Remove(old(app.store.tables), KeysFile(app.store.dataDir), FileName(input)))
      && (ResolvesToDirectory(name) ==>
            && decrypted == Fail(IsDirectory(DecryptedDir(app.fs.home)))
            && app.fs.files == old(app.fs.files) && app.store.tables == old(app.store.tables))
  {
    var home := app.fs.home;
    var u := Trim(username);
    var out := PrivateOutput(home, u, input);
    PrivateOutputUnder(app.fs.files, home, u, input);
    KeyIdOfEncrypted(FileName(input));
    ghost var dest := Join(DecryptedDir(home), FileName(DecryptedPath(out)));
    DecryptedDirApart(home, u, FileName(DecryptedPath(out)), FileName(input) + EncSuffix);
    DecryptEncrypted(app.crypto, before, input, out, key, dest);
    decrypted := app.DecryptFilePrivate(username, out);
  }

  /** After a key is saved in a user's scope, the user is still registered
      with the same private key, and the saved key is found again for the
      ciphertext's name. */
  lemma UserScopeAfterSave(c: Suite, t: Tables, dataDir: string, username: string, name: string,
                           key: Bytes, kp: KeyPair)
    requires Sound(c) && c.isKeyPair(kp.pub, kp.priv) && key != []
    requires StoreWrapped(c, t, PrivateKeysFile(dataDir, username), name, key, kp.pub).Ok?
    ensures var r := StoreWrapped(c, t, PrivateKeysFile(dataDir, username), name, key, kp.pub).value;
      && HasUser(r, dataDir, username) == HasUser(t, dataDir, username)
      && Lookup(r, UsersFile(dataDir), Entry(username, PrivateKeyEncrypted))
         == Lookup(t, UsersFile(dataDir), Entry(username, PrivateKeyEncrypted))
      && Lookup(r, PrivateKeysFile(dataDir, username), name).Some?
      && EncryptionUtil.GetPrivateKey(r, dataDir, c, username, name + EncSuffix, kp.priv) == Ok(key)
  {
    PrivateKeysFileIsolated(dataDir, username);
    SavePrivateKeyThenGetPrivateKey(t, dataDir, c, username, name, key, kp.pub, kp.priv);
  }
}
