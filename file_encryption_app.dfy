/** FileEncryptionApp without its Swing front end: the start-up load-or-create
    of the system identity, and what each button's handler does to the store
    and the files once a file has been chosen or a name typed. The chosen file,
    the typed text and the freshly generated keys are parameters. */
module App {
  import opened Common
  import opened Strings
  import opened Crypto
  import opened Storage
  import opened Files
  import opened EncryptionUtil

  /** Where public encryption writes: user.home + "/Documents/cs/encriptado". */
  function PublicEncryptedDir(home: string): string {
    home + "/Documents/cs/encriptado"
  }

  /** The ciphertext of the public flow: the input's name plus ".enc", in the public directory. */
  function PublicOutput(home: string, input: string): (out: string)
    ensures StartsWith(out, PublicEncryptedDir(home) + "/")
    ensures FileName(out) == FileName(input) + EncSuffix
  {
    assert '/' !in FileName(input) + EncSuffix;
    FileNameOfJoin(PublicEncryptedDir(home), FileName(input) + EncSuffix);
    JoinStartsWith(PublicEncryptedDir(home), FileName(input) + EncSuffix);
    Join(PublicEncryptedDir(home), FileName(input) + EncSuffix)
  }

  /** The ciphertext of the private flow: the same name, in the user's private directory. */
  function PrivateOutput(home: string, username: string, input: string): (out: string)
    ensures StartsWith(out, PrivateEncryptedDir(home, username) + "/")
    ensures FileName(out) == FileName(input) + EncSuffix
  {
    assert '/' !in FileName(input) + EncSuffix;
    FileNameOfJoin(PrivateEncryptedDir(home, username), FileName(input) + EncSuffix);
    JoinStartsWith(PrivateEncryptedDir(home, username), FileName(input) + EncSuffix);
    Join(PrivateEncryptedDir(home, username), FileName(input) + EncSuffix)
  }

  /** The output both decrypting flows hand to decryptFile: the input path
      with every ".enc" removed (String.replace). */
  function DecryptedPath(input: string): (output: string)
    ensures |output| <= |input|
    ensures !Contains(input, EncSuffix) ==> output == input
  {
    RemoveEncAbsent(input);
    RemoveAll(input, EncSuffix)
  }

  lemma RemoveEncAbsent(input: string)
    ensures !Contains(input, EncSuffix) ==> RemoveAll(input, EncSuffix) == input
  {
    if !Contains(input, EncSuffix) {
      RemoveAllAbsent(input, EncSuffix);
    }
  }

  /** A user's stored public key as the private-encryption flow reads it: a
      missing entry is dereferenced as null, a malformed one is refused. */
  function StoredPublicKey(c: Suite, text: Option<string>): (r: Result<Bytes>)
    ensures text.None? ==> r == Err(MissingValue)
    ensures text.Some? ==> (r.Ok? <==> Base64ToPublicKey(c, text.value).Some?)
    ensures text.Some? && r.Err? ==> r.error == MalformedKey
    ensures r.Ok? ==> c.isPublicKey(r.value) && c.base64Decode(text.value) == Some(r.value)
  {
    match text
    case None => Err(MissingValue)
    case Some(s) =>
      match Base64ToPublicKey(c, s)
      case None => Err(MalformedKey)
      case Some(k) => Ok(k)
  }

  /** A user's stored private key as the private-decryption flow reads it. */
  function StoredPrivateKey(c: Suite, text: Option<string>): (r: Result<Bytes>)
    ensures text.None? ==> r == Err(MissingValue)
    ensures text.Some? ==> (r.Ok? <==> Base64ToPrivateKey(c, text.value).Some?)
    ensures text.Some? && r.Err? ==> r.error == MalformedKey
    ensures r.Ok? ==> c.isPrivateKey(r.value) && c.base64Decode(text.value) == Some(r.value)
  {
    match text
    case None => Err(MissingValue)
    case Some(s) =>
      match Base64ToPrivateKey(c, s)
      case None => Err(MalformedKey)
      case Some(k) => Ok(k)
  }

  // ---------------------------------------------------------------------------
  // How names are derived

  /** The key of an encrypted file is saved under the input's plain name, and
      the ciphertext's key id is that same name. */
  lemma OutputKeyId(dir: string, input: string)
    ensures FileName(Join(dir, FileName(input) + EncSuffix)) == FileName(input) + EncSuffix
    ensures KeyId(FileName(Join(dir, FileName(input) + EncSuffix))) == FileName(input)
    ensures Join(dir, FileName(input) + EncSuffix) != input
  {
    assert '/' !in FileName(input) + EncSuffix;
    FileNameOfJoin(dir, FileName(input) + EncSuffix);
    KeyIdOfEncrypted(FileName(input));
  }

  /** When neither the directory nor the name holds ".enc", decrypting the
      ciphertext gives back the original name. */
  lemma DecryptedNameOfOutput(dir: string, name: string)
    requires name != [] && '/' !in name && !Contains(Join(dir, name), EncSuffix)
    ensures FileName(DecryptedPath(Join(dir, name + EncSuffix))) == name
  {
    var p := Join(dir, name);
    assert Join(dir, name + EncSuffix) == p + EncSuffix + [];
    RemoveEncThenRest(p, []);
    assert RemoveAll([], EncSuffix) == [];
    assert DecryptedPath(Join(dir, name + EncSuffix)) == p;
    FileNameOfJoin(dir, name);
  }

  /** A file named a + ".enc" + b is encrypted to a + ".enc" + b + ".enc".
      Its key is found under the original name, but every ".enc" is removed
      from the decrypted name, which becomes a + b. */
  lemma InnerEncLostOnDecrypt(dir: string, a: string, b: string)
    requires a + b != [] && '/' !in a && '/' !in b
    requires !Contains(Join(dir, a), EncSuffix) && !Contains(b, EncSuffix)
    ensures var out := Join(dir, a + EncSuffix + b + EncSuffix);
      && KeyId(FileName(out)) == a + EncSuffix + b
      && FileName(DecryptedPath(out)) == a + b
  {
    var name := a + EncSuffix + b;
    assert '/' !in name + EncSuffix;
    FileNameOfJoin(dir, name + EncSuffix);
    KeyIdOfEncrypted(name);
    DecryptedNameDropsInnerEnc(dir, a, b);
  }

  lemma DecryptedNameDropsInnerEnc(dir: string, a: string, b: string)
    requires a + b != [] && '/' !in a && '/' !in b
    requires !Contains(Join(dir, a), EncSuffix) && !Contains(b, EncSuffix)
    ensures FileName(DecryptedPath(Join(dir, a + EncSuffix + b + EncSuffix))) == a + b
  {
    var out := Join(dir, a + EncSuffix + b + EncSuffix);
    assert DecryptedPath(out) == Join(dir, a + b) by {
      assert out == Join(dir, a) + EncSuffix + b + EncSuffix;
      RemoveEncTwice(Join(dir, a), b);
    }
    FileNameOfJoin(dir, a + b);
  }

  /** A file named just ".enc" is encrypted publicly to ".enc.enc". Its key is
      found under ".enc", but the decrypted path is the public directory
      followed by a separator, which java.io.File names after that directory:
      the plaintext is written as "encriptado" in the decrypted directory. */
  lemma EncNamedFileDecryptsToDirName(home: string, input: string)
    requires FileName(input) == EncSuffix && !Contains(PublicEncryptedDir(home) + "/", EncSuffix)
    ensures var out := PublicOutput(home, input);
      && KeyId(FileName(out)) == EncSuffix
      && FileName(DecryptedPath(out)) == "encriptado"
  {
    KeyIdOfEncrypted(EncSuffix);
    DecryptedNameOfEncEnc(home);
  }

  /** A file named "..enc" is encrypted publicly to "..enc.enc". Its key is
      found under "..enc", but the decrypted name is ".", which names the
      decrypted directory itself, so the plaintext cannot be written. */
  lemma DotEncDecryptsToDot(home: string, input: string)
    requires FileName(input) == "..enc" && !Contains(Join(PublicEncryptedDir(home), "."), EncSuffix)
    ensures var out := PublicOutput(home, input);
      && KeyId(FileName(out)) == "..enc"
      && FileName(DecryptedPath(out)) == "."
      && ResolvesToDirectory(FileName(DecryptedPath(out)))
  {
    assert "." + EncSuffix + "" + EncSuffix == FileName(input) + EncSuffix;
    InnerEncLostOnDecrypt(PublicEncryptedDir(home), ".", "");
  }

  lemma DecryptedNameOfEncEnc(home: string)
    requires !Contains(PublicEncryptedDir(home) + "/", EncSuffix)
    ensures FileName(DecryptedPath(Join(PublicEncryptedDir(home), EncSuffix + EncSuffix))) == "encriptado"
  {
    PublicDirName(home);
    DecryptedNameIsDirName(PublicEncryptedDir(home));
  }

  lemma DecryptedNameIsDirName(dir: string)
    requires dir != [] && dir[|dir| - 1] != '/' && !Contains(dir + "/", EncSuffix)
    ensures FileName(DecryptedPath(Join(dir, EncSuffix + EncSuffix))) == Name(dir)
  {
    DecryptedPathOfEncEnc(dir);
    FileNameOfDirectory(dir);
  }

  lemma DecryptedPathOfEncEnc(dir: string)
    requires !Contains(dir + "/", EncSuffix)
    ensures DecryptedPath(Join(dir, EncSuffix + EncSuffix)) == dir + "/"
  {
    assert Join(dir, EncSuffix + EncSuffix) == (dir + "/") + EncSuffix + [] + EncSuffix;
    RemoveEncTwice(dir + "/", []);
  }

  lemma PublicDirName(home: string)
    ensures PublicEncryptedDir(home) != [] && PublicEncryptedDir(home)[|PublicEncryptedDir(home)| - 1] != '/'
    ensures Name(PublicEncryptedDir(home)) == "encriptado"
  {
    assert PublicEncryptedDir(home) == Join(home + "/Documents/cs", "encriptado");
    NameOfJoin(home + "/Documents/cs", "encriptado");
  }

  /** The ciphertexts the application writes never decrypt to an empty name:
      the 'D' of "Documents" in their path survives the removal of ".enc". */
  lemma DecryptedNameNonEmpty(home: string, username: string, input: string)
    ensures FileName(DecryptedPath(PublicOutput(home, input))) != []
    ensures FileName(DecryptedPath(PrivateOutput(home, username, input))) != []
  {
    DocumentsInDirs(home, username);
    JoinKeeps(PublicEncryptedDir(home), FileName(input) + EncSuffix, |home| + 1);
    KeepsSeparatorFreeChar(PublicOutput(home, input), |home| + 1);
    JoinKeeps(PrivateEncryptedDir(home, username), FileName(input) + EncSuffix, |home| + 1);
    KeepsSeparatorFreeChar(PrivateOutput(home, username, input), |home| + 1);
  }

  /** Both encrypted directories hold the 'D' of "Documents" just after the home directory. */
  lemma DocumentsInDirs(home: string, username: string)
    ensures |PublicEncryptedDir(home)| > |home| + 1 && PublicEncryptedDir(home)[|home| + 1] == 'D'
    ensures |PrivateEncryptedDir(home, username)| > |home| + 1 && PrivateEncryptedDir(home, username)[|home| + 1] == 'D'
  {
  }

  /** Joining a name to a directory keeps the directory's characters in place. */
  lemma JoinKeeps(dir: string, name: string, k: int)
    requires 0 <= k < |dir|
    ensures |Join(dir, name)| > k && Join(dir, name)[k] == dir[k]
  {
  }

  /** A path holding a 'D' keeps it through replace(".enc", ""), so its decrypted name is not empty. */
  lemma KeepsSeparatorFreeChar(path: string, k: int)
    requires 0 <= k < |path| && path[k] == 'D'
    ensures FileName(DecryptedPath(path)) != []
  {
    RemoveAllKeeps(path, EncSuffix, 'D');
    var out := DecryptedPath(path);
    var j :| 0 <= j < |out| && out[j] == 'D';
    assert out[j] != '/';
  }

  /** The decrypted directory lies apart from both encrypted directories, so
      a decryption never writes over a ciphertext. */
  lemma DecryptedDirApart(home: string, username: string, a: string, b: string)
    ensures Join(DecryptedDir(home), a) != Join(PublicEncryptedDir(home), b)
    ensures Join(DecryptedDir(home), a) != Join(PrivateEncryptedDir(home, username), b)
  {
    var i := |home| + 14;
    assert Join(DecryptedDir(home), a)[i] == 'd';
    assert Join(PublicEncryptedDir(home), b)[i] == 'e';
    assert Join(PrivateEncryptedDir(home, username), b)[i] == 'e';
  }

  /** A user's private ciphertext makes the user's private directory non-empty. */
  lemma PrivateOutputUnder(files: map<string, Bytes>, home: string, username: string, input: string)
    requires PrivateOutput(home, username, input) in files
    ensures HasFileUnder(files, PrivateEncryptedDir(home, username))
  {
    JoinStartsWith(PrivateEncryptedDir(home, username), FileName(input) + EncSuffix);
  }

  /** The system identity written at first start reads back at the next start. */
  lemma RestartLoadsSavedIdentity(c: Suite, t: Tables, dataDir: string, kp: KeyPair)
    requires Sound(c) && c.isKeyPair(kp.pub, kp.priv)
    ensures var r := WithSystemKeys(t, dataDir, PublicKeyToBase64(c, kp.pub), PrivateKeyToBase64(c, kp.priv));
      && HasSystemKeys(r, dataDir)
      && Base64ToKeyPair(c, Lookup(r, UsersFile(dataDir), SystemPublicEntry).value,
                         Lookup(r, UsersFile(dataDir), SystemPrivateEntry).value) == Some(kp)
  {
    SaveSystemKeysReadBack(t, dataDir, PublicKeyToBase64(c, kp.pub), PrivateKeyToBase64(c, kp.priv));
    KeyPairBase64RoundTrip(c, kp);
  }

  /** The keys a user is created with read back as that user's key pair. */
  lemma StoredKeysOfCreatedUser(c: Suite, t: Tables, dataDir: string, username: string, hash: string, kp: KeyPair)
    requires Sound(c) && c.isKeyPair(kp.pub, kp.priv)
    ensures var r := WithUser(t, dataDir, username, hash, PublicKeyToBase64(c, kp.pub), PrivateKeyToBase64(c, kp.priv));
      && StoredPublicKey(c, Lookup(r, UsersFile(dataDir), Entry(username, PublicKey))) == Ok(kp.pub)
      && StoredPrivateKey(c, Lookup(r, UsersFile(dataDir), Entry(username, PrivateKeyEncrypted))) == Ok(kp.priv)
  {
    SaveUserReadBack(t, dataDir, username, hash, PublicKeyToBase64(c, kp.pub), PrivateKeyToBase64(c, kp.priv));
  }

  // ---------------------------------------------------------------------------
  // The application

  class FileEncryptionApp {
    const store: LocalStorage
    const fs: FileSystem
    const crypto: Suite
    /** The system identity; None when loading or generating it failed. */
    var rsaKeyPair: Option<KeyPair>

    /** Load the system identity if both halves are stored, otherwise take
        the generated pair and store both halves in one update. A failure is
        swallowed and leaves the identity unset. */
    constructor(store: LocalStorage, fs: FileSystem, crypto: Suite, generated: Option<KeyPair>)
      modifies store
      ensures this.store == store && this.fs == fs && this.crypto == crypto
      ensures old(store.SystemKeysExist()) ==>
        && store.tables == old(store.tables)
        && rsaKeyPair == Base64ToKeyPair(crypto, old(store.GetSystemPublicKey()).value,
                                         old(store.GetSystemPrivateKey()).value)
      ensures !old(store.SystemKeysExist()) && generated.None? ==>
        rsaKeyPair.None? && store.tables == old(store.tables)
      ensures !old(store.SystemKeysExist()) && generated.Some? ==>
        && rsaKeyPair == generated
        && store.tables == WithSystemKeys(old(store.tables), store.dataDir,
                                          PublicKeyToBase64(crypto, generated.value.pub),
                                          PrivateKeyToBase64(crypto, generated.value.priv))
    {
      this.store := store;
      this.fs := fs;
      this.crypto := crypto;
      new;
      if store.SystemKeysExist() {
        var publicKeyBase64 := store.GetSystemPublicKey().value;
        var privateKeyBase64 := store.GetSystemPrivateKey().value;
        rsaKeyPair := Base64ToKeyPair(crypto, publicKeyBase64, privateKeyBase64);
      } else if generated.None? {
        rsaKeyPair := None;
      } else {
        rsaKeyPair := generated;
        var publicKeyBase64 := PublicKeyToBase64(crypto, generated.value.pub);
        var privateKeyBase64 := PrivateKeyToBase64(crypto, generated.value.priv);
        store.SaveSystemRSAKeys(publicKeyBase64, privateKeyBase64);
      }
    }

    /** encryptFilePublic, once `input` is chosen and `key` generated: the
        file is encrypted first, then the key is wrapped under the system
        public key and saved under the input's name. A missing identity or a
        failed wrap therefore leaves the ciphertext without a saved key. */
    method EncryptFilePublic(input: string, key: Bytes) returns (r: Outcome)
      modifies store, fs
      ensures var n := EncryptedFiles(crypto, old(fs.files), input, PublicOutput(fs.home, input), key);
        && (n.Err? ==> r == Fail(n.error) && fs.files == old(fs.files) && store.tables == old(store.tables))
        && (n.Ok? ==> fs.files == n.value)
        && (n.Ok? && rsaKeyPair.None? ==> r == Fail(NoSystemKeyPair) && store.tables == old(store.tables))
        && (n.Ok? && rsaKeyPair.Some? ==>
              var s := StoreWrapped(crypto, old(store.tables), KeysFile(store.dataDir), FileName(input), key,
                                    rsaKeyPair.value.pub);
              && (s.Err? ==> r == Fail(s.error) && store.tables == old(store.tables))
              && (s.Ok? ==> r == Pass && store.tables == s.value))
    {
      r := EncryptFile(fs, crypto, input, PublicOutput(fs.home, input), key);
      if r.Fail? {
        return;
      }
      r := SaveKeyWithIdentity(FileName(input), key);
    }

    /** The steps of encryptFilePublic after the file is encrypted: without a
        system identity the handler fails; otherwise the AES key is wrapped
        under the system public key and saved in the public map. */
    method SaveKeyWithIdentity(filename: string, key: Bytes) returns (r: Outcome)
      modifies store
      ensures rsaKeyPair.None? ==> r == Fail(NoSystemKeyPair) && store.tables == old(store.tables)
      ensures rsaKeyPair.Some? ==>
        var s := StoreWrapped(crypto, old(store.tables), KeysFile(store.dataDir), filename, key, rsaKeyPair.value.pub);
        && (s.Err? ==> r == Fail(s.error) && store.tables == old(store.tables))
        && (s.Ok? ==> r == Pass && store.tables == s.value)
    {
      if rsaKeyPair.None? {
        return Fail(NoSystemKeyPair);
      }
      r := SaveKey(store, crypto, filename, key, rsaKeyPair.value.pub);
    }

    /** encryptFilePrivate, once a name is typed, `input` chosen and `key`
        generated: behind the registered-user gate on the trimmed name, the
        file is encrypted into the user's private directory, then the key is
        wrapped under the user's public key and saved in the user's map under
        the input's name. */
    method EncryptFilePrivate(username: string, input: string, key: Bytes) returns (r: Outcome)
      modifies store, fs
      ensures var u := Trim(username);
        u == [] ==> r == Fail(BlankInput) && fs.files == old(fs.files) && store.tables == old(store.tables)
      ensures var u := Trim(username);
        u != [] && !old(store.UserExists(u)) ==>
          r == Fail(UnknownUser(username)) && fs.files == old(fs.files) && store.tables == old(store.tables)
      ensures var u := Trim(username);
        u != [] && old(store.UserExists(u)) ==>
          var n := EncryptedFiles(crypto, old(fs.files), input, PrivateOutput(fs.home, u, input), key);
          && (n.Err? ==> r == Fail(n.error) && fs.files == old(fs.files) && store.tables == old(store.tables))
          && (n.Ok? ==> fs.files == n.value)
          && (n.Ok? ==>
                var pub := StoredPublicKey(crypto, old(store.GetUserPublicKey(u)));
                && (pub.Err? ==> r == Fail(pub.error) && store.tables == old(store.tables))
                && (pub.Ok? ==>
                      var s := StoreWrapped(crypto, old(store.tables), PrivateKeysFile(store.dataDir, u), FileName(input),
                                            key, pub.value);
                      && (s.Err? ==> r == Fail(s.error) && store.tables == old(store.tables))
                      && (s.Ok? ==> r == Pass && store.tables == s.value)))
    {
      var u := Trim(username);
      if u == [] {
        return Fail(BlankInput);
      }
      if !store.UserExists(u) {
        return Fail(UnknownUser(username));
      }
      r := EncryptForUser(u, input, key);
    }

    /** The steps of encryptFilePrivate once the gate has passed for the
        trimmed name `u`: encrypt into the user's private directory, then
        save the wrapped key in the user's map. */
    method EncryptForUser(u: string, input: string, key: Bytes) returns (r: Outcome)
      modifies store, fs
      ensures var n := EncryptedFiles(crypto, old(fs.files), input, PrivateOutput(fs.home, u, input), key);
        && (n.Err? ==> r == Fail(n.error) && fs.files == old(fs.files) && store.tables == old(store.tables))
        && (n.Ok? ==> fs.files == n.value)
        && (n.Ok? ==>
              var pub := StoredPublicKey(crypto, old(store.GetUserPublicKey(u)));
              && (pub.Err? ==> r == Fail(pub.error) && store.tables == old(store.tables))
              && (pub.Ok? ==>
                    var s := StoreWrapped(crypto, old(store.tables), PrivateKeysFile(store.dataDir, u), FileName(input),
                                          key, pub.value);
                    && (s.Err? ==> r == Fail(s.error) && store.tables == old(store.tables))
                    && (s.Ok? ==> r == Pass && store.tables == s.value)))
    {
      r := EncryptFile(fs, crypto, input, PrivateOutput(fs.home, u, input), key);
      if r.Fail? {
        return;
      }
      r := SaveKeyForUser(u, FileName(input), key);
    }

    /** The steps of encryptFilePrivate after the file is encrypted: the
        user's stored public key is decoded, and the AES key is wrapped under
        it and saved in the user's map under the input's name. */
    method SaveKeyForUser(u: string, filename: string, key: Bytes) returns (r: Outcome)
      modifies store
      ensures var pub := StoredPublicKey(crypto, old(store.GetUserPublicKey(u)));
        && (pub.Err? ==> r == Fail(pub.error) && store.tables == old(store.tables))
        && (pub.Ok? ==>
              var s := StoreWrapped(crypto, old(store.tables), PrivateKeysFile(store.dataDir, u), filename, key, pub.value);
              && (s.Err? ==> r == Fail(s.error) && store.tables == old(store.tables))
              && (s.Ok? ==> r == Pass && store.tables == s.value))
    {
      var userPublicKey := StoredPublicKey(crypto, store.GetUserPublicKey(u));
      if userPublicKey.Err? {
        return Fail(userPublicKey.error);
      }
      r := EncryptionUtil.SavePrivateKey(store, crypto, u, filename, key, userPublicKey.value);
    }

    /** decryptFilePublic, once `input` is chosen: the key is looked up in the
        public map under the input name's key id and unwrapped with the system
        private key; decryptFile then writes the plaintext and removes the
        public entry. On failure nothing changes. */
    method DecryptFilePublic(input: string) returns (r: Outcome)
      modifies store, fs
      ensures r.Fail? ==> fs.files == old(fs.files) && store.tables == old(store.tables)
      ensures rsaKeyPair.None? ==> r == Fail(NoSystemKeyPair)
      ensures rsaKeyPair.Some? ==>
        var k := GetKey(old(store.tables), store.dataDir, crypto, FileName(input), rsaKeyPair.value.priv);
        && (k.Err? ==> r == Fail(k.error))
        && (k.Ok? ==>
              var name := FileName(DecryptedPath(input));
              var n := DecryptedFiles(crypto, old(fs.files), input, Join(DecryptedDir(fs.home), name), k.value);
              && (n.Err? ==> r == Fail(n.error))
              && (n.Ok? && ResolvesToDirectory(name) ==> r == Fail(IsDirectory(DecryptedDir(fs.home))))
              && (n.Ok? && !ResolvesToDirectory(name) ==>
                    && r == Pass
                    && fs.files == n.value
                    && store.tables == Remove(old(store.tables), KeysFile(store.dataDir), KeyId(FileName(input)))))
    {
      var outputFile := DecryptedPath(input);
      if rsaKeyPair.None? {
        return Fail(NoSystemKeyPair);
      }
      var key := GetKey(store.tables, store.dataDir, crypto, FileName(input), rsaKeyPair.value.priv);
      if key.Err? {
        return Fail(key.error);
      }
      r := DecryptFile(store, fs, crypto, input, outputFile, key.value);
    }

    /** decryptFilePrivate, once a name is typed and `input` chosen: behind
        the registered-user gate and a non-empty private directory, the key is
        looked up in the user's map and unwrapped with the user's private key;
        but decryptFile then writes to the shared decrypted directory and
        removes the PUBLIC entry, so the user's entry stays. On failure
        nothing changes. */
    method DecryptFilePrivate(username: string, input: string) returns (r: Outcome)
      modifies store, fs
      ensures r.Fail? ==> fs.files == old(fs.files) && store.tables == old(store.tables)
      ensures var u := Trim(username);
        u == [] ==> r == Fail(BlankInput)
      ensures var u := Trim(username);
        u != [] && !old(store.UserExists(u)) ==> r == Fail(UnknownUser(username))
      ensures var u := Trim(username);
        u != [] && old(store.UserExists(u)) && !HasFileUnder(old(fs.files), PrivateEncryptedDir(fs.home, u)) ==>
          r == Fail(NoPrivateFiles(username))
      ensures var u := Trim(username);
        u != [] && old(store.UserExists(u)) && HasFileUnder(old(fs.files), PrivateEncryptedDir(fs.home, u)) ==>
          var priv := StoredPrivateKey(crypto, old(store.GetUserPrivateKey(u)));
          && (priv.Err? ==> r == Fail(priv.error))
          && (priv.Ok? ==>
                var k := GetPrivateKey(old(store.tables), store.dataDir, crypto, u, FileName(input), priv.value);
                && (k.Err? ==> r == Fail(k.error))
                && (k.Ok? ==>
                      var name := FileName(DecryptedPath(input));
                      var n := DecryptedFiles(crypto, old(fs.files), input, Join(DecryptedDir(fs.home), name), k.value);
                      && (n.Err? ==> r == Fail(n.error))
                      && (n.Ok? && ResolvesToDirectory(name) ==> r == Fail(IsDirectory(DecryptedDir(fs.home))))
                      && (n.Ok? && !ResolvesToDirectory(name) ==>
                            && r == Pass
                            && fs.files == n.value
                            && store.tables == Remove(old(store.tables), KeysFile(store.dataDir), KeyId(FileName(input))))))
    {
      var u := Trim(username);
      if u == [] {
        return Fail(BlankInput);
      }
      if !store.UserExists(u) {
        return Fail(UnknownUser(username));
      }
      if !HasFileUnder(fs.files, PrivateEncryptedDir(fs.home, u)) {
        return Fail(NoPrivateFiles(username));
      }
      var outputFile := DecryptedPath(input);
      var privateKey := StoredPrivateKey(crypto, store.GetUserPrivateKey(u));
      if privateKey.Err? {
        return Fail(privateKey.error);
      }
      var key := EncryptionUtil.GetPrivateKey(store.tables, store.dataDir, crypto, u, FileName(input), privateKey.value);
      if key.Err? {
        return Fail(key.error);
      }
      r := DecryptFile(store, fs, crypto, input, outputFile, key.value);
    }

    /** The create-user handler: the trimmed name and the password must be
        non-empty and the name unregistered; then the user is saved with the
        password's hash and the generated pair, the private half Base64'd
        without further encryption. Otherwise nothing is written. */
    method CreateUser(username: string, password: string, generated: Option<KeyPair>) returns (r: Outcome)
      modifies store
      ensures r.Fail? ==> store.tables == old(store.tables)
      ensures var u := Trim(username);
        u == [] || password == [] ==> r == Fail(BlankInput)
      ensures var u := Trim(username);
        u != [] && password != [] && old(store.UserExists(u)) ==> r == Fail(UserAlreadyExists(u))
      ensures var u := Trim(username);
        u != [] && password != [] && !old(store.UserExists(u)) && generated.None? ==> r == Fail(KeyGenerationFailed)
      ensures var u := Trim(username);
        u != [] && password != [] && !old(store.UserExists(u)) && generated.Some? ==>
          && r == Pass
          && store.tables == WithUser(old(store.tables), store.dataDir, u, crypto.hashPassword(password),
                                      PublicKeyToBase64(crypto, generated.value.pub),
                                      PrivateKeyToBase64(crypto, generated.value.priv))
          && store.UserExists(u)
    {
      var u := Trim(username);
      if u == [] || password == [] {
        return Fail(BlankInput);
      }
      if store.UserExists(u) {
        return Fail(UserAlreadyExists(u));
      }
      if generated.None? {
        return Fail(KeyGenerationFailed);
      }
      var publicKeyBase64 := PublicKeyToBase64(crypto, generated.value.pub);
      var privateKeyBase64 := PrivateKeyToBase64(crypto, generated.value.priv);
      var passwordHash := crypto.hashPassword(password);
      store.SaveUser(u, passwordHash, publicKeyBase64, privateKeyBase64);
      r := Pass;
    }
  }
}
