/** FileEncryptionUtil: saving, finding and deleting wrapped AES keys, and the
    destructive encrypt and decrypt sequences over files. The cryptography is
    the uninterpreted `Suite`; the AES key is its encoded bytes. */
module EncryptionUtil {
  import opened Common
  import opened Strings
  import opened Crypto
  import opened Storage
  import opened Files

  /** The suffix of every encrypted file. */
  const EncSuffix := ".enc"

  /** Where decryptFile writes: user.home + "/Documents/cs/desencriptado". */
  function DecryptedDir(home: string): string {
    home + "/Documents/cs/desencriptado"
  }

  /** Where encryptFilePrivate writes, and where the private flows put ciphertext. */
  function PrivateEncryptedDir(home: string, username: string): string {
    home + "/Documents/cs/encriptado_privado/" + username
  }

  /** Where decryptFilePrivate writes. */
  function PrivateDecryptedDir(home: string, username: string): string {
    home + "/Documents/cs/desencriptado_privado/" + username
  }

  // ---------------------------------------------------------------------------
  // Key identifiers

  /** The entry name a file's wrapped key is looked up under: the name with
      one trailing ".enc" removed, or the name itself when it has none. */
  function KeyId(filename: string): (id: string)
    ensures EndsWith(filename, EncSuffix) ==> id + EncSuffix == filename
    ensures !EndsWith(filename, EncSuffix) ==> id == filename
  {
    if EndsWith(filename, EncSuffix) then
      var id := filename[..|filename| - |EncSuffix|];
      assert filename == id + filename[|filename| - |EncSuffix|..];
      id
    else filename
  }

  /** Stripping the suffix undoes appending it. */
  lemma KeyIdOfEncrypted(name: string)
    ensures KeyId(name + EncSuffix) == name
  {
    var f := name + EncSuffix;
    assert f[|f| - |EncSuffix|..] == EncSuffix;
    var id := KeyId(f);
    assert id == (id + EncSuffix)[..|id|] == f[..|name|] == name;
  }

  // ---------------------------------------------------------------------------
  // Wrapping

  /** The first steps of saveKey and savePrivateKey: RSA-encrypt the AES key
      under a public key, then Base64 the result. */
  function WrapKey(c: Suite, key: Bytes, pub: Bytes): (r: Option<string>)
    ensures r.Some? <==> c.rsaEncrypt(key, pub).Some?
    ensures Sound(c) && r.Some? ==> c.base64Decode(r.value) == c.rsaEncrypt(key, pub)
  {
    match c.rsaEncrypt(key, pub)
    case None => None
    case Some(w) => Some(c.base64Encode(w))
  }

  /** The inverse steps of getKey and getPrivateKey: Base64 decoding, RSA
      decryption, and the AES key spec, which refuses an empty key. */
  function UnwrapKey(c: Suite, stored: string, priv: Bytes): (r: Result<Bytes>)
    ensures c.base64Decode(stored).None? ==> r == Err(MalformedKey)
    ensures r.Err? ==> r.error == MalformedKey || r.error == WrapFailure || r.error == EmptyKey
    ensures r.Ok? <==> c.base64Decode(stored).Some? && c.rsaDecrypt(c.base64Decode(stored).value, priv).Some?
                       && c.rsaDecrypt(c.base64Decode(stored).value, priv).value != []
    ensures r.Ok? ==> Some(r.value) == c.rsaDecrypt(c.base64Decode(stored).value, priv)
  {
    match c.base64Decode(stored)
    case None => Err(MalformedKey)
    case Some(w) =>
      match c.rsaDecrypt(w, priv)
      case None => Err(WrapFailure)
      case Some(k) => if k == [] then Err(EmptyKey) else Ok(k)
  }

  /** A key wrapped under a public key unwraps under the matching private key. */
  lemma UnwrapWrapped(c: Suite, key: Bytes, pub: Bytes, priv: Bytes)
    requires Sound(c) && c.isKeyPair(pub, priv) && key != [] && WrapKey(c, key, pub).Some?
    ensures UnwrapKey(c, WrapKey(c, key, pub).value, priv) == Ok(key)
  {
  }

  // ---------------------------------------------------------------------------
  // Looking keys up (reads only; the store is a snapshot)

  /** getKey: the public map's entry for the file's key id, unwrapped. A
      missing entry is an IllegalArgumentException naming the file. */
  function GetKey(t: Tables, dataDir: string, c: Suite, filename: string, priv: Bytes): (r: Result<Bytes>)
    ensures r == Err(KeyNotFound(filename)) <==> Lookup(t, KeysFile(dataDir), KeyId(filename)).None?
    ensures Lookup(t, KeysFile(dataDir), KeyId(filename)).Some? ==>
      r == UnwrapKey(c, Lookup(t, KeysFile(dataDir), KeyId(filename)).value, priv)
  {
    match Lookup(t, KeysFile(dataDir), KeyId(filename))
    case None => Err(KeyNotFound(filename))
    case Some(stored) => UnwrapKey(c, stored, priv)
  }

  /** getPrivateKey: the same lookup in the named user's own map only. */
  function GetPrivateKey(t: Tables, dataDir: string, c: Suite, username: string, filename: string,
                         priv: Bytes): (r: Result<Bytes>)
    ensures r == Err(KeyNotFound(filename))
         <==> Lookup(t, PrivateKeysFile(dataDir, username), KeyId(filename)).None?
    ensures Lookup(t, PrivateKeysFile(dataDir, username), KeyId(filename)).Some? ==>
      r == UnwrapKey(c, Lookup(t, PrivateKeysFile(dataDir, username), KeyId(filename)).value, priv)
  {
    match Lookup(t, PrivateKeysFile(dataDir, username), KeyId(filename))
    case None => Err(KeyNotFound(filename))
    case Some(stored) => UnwrapKey(c, stored, priv)
  }

  /** saveKey(n, k, pub) followed by getKey(n + ".enc", priv) for the matching
      private key returns k. */
  lemma SaveKeyThenGetKey(t: Tables, dataDir: string, c: Suite, name: string, key: Bytes, pub: Bytes, priv: Bytes)
    requires Sound(c) && c.isKeyPair(pub, priv) && key != []
    requires StoreWrapped(c, t, KeysFile(dataDir), name, key, pub).Ok?
    ensures GetKey(StoreWrapped(c, t, KeysFile(dataDir), name, key, pub).value, dataDir, c, name + EncSuffix, priv)
         == Ok(key)
  {
    KeyIdOfEncrypted(name);
    StoreWrappedUnwraps(c, t, KeysFile(dataDir), name, key, pub, priv);
  }

  /** savePrivateKey(u, n, k, pub) followed by getPrivateKey(u, n + ".enc", priv)
      for the matching private key returns k. */
  lemma SavePrivateKeyThenGetPrivateKey(t: Tables, dataDir: string, c: Suite, username: string, name: string,
                                        key: Bytes, pub: Bytes, priv: Bytes)
    requires Sound(c) && c.isKeyPair(pub, priv) && key != []
    requires StoreWrapped(c, t, PrivateKeysFile(dataDir, username), name, key, pub).Ok?
    ensures GetPrivateKey(StoreWrapped(c, t, PrivateKeysFile(dataDir, username), name, key, pub).value,
                          dataDir, c, username, name + EncSuffix, priv) == Ok(key)
  {
    KeyIdOfEncrypted(name);
    StoreWrappedUnwraps(c, t, PrivateKeysFile(dataDir, username), name, key, pub, priv);
  }

  /** A key saved in one user's scope is not found in another user's scope,
      nor in the public scope, unless it was already there. */
  lemma PrivateKeyInvisibleElsewhere(t: Tables, dataDir: string, c: Suite, username: string, name: string,
                                     stored: string, other: string, filename: string, priv: Bytes)
    requires other != username
    ensures var r := Put(t, PrivateKeysFile(dataDir, username), name, stored);
      && GetPrivateKey(r, dataDir, c, other, filename, priv) == GetPrivateKey(t, dataDir, c, other, filename, priv)
      && GetKey(r, dataDir, c, filename, priv) == GetKey(t, dataDir, c, filename, priv)
  {
    SavePrivateKeyIsolation(t, dataDir, username, name, stored, other, KeyId(filename));
  }

  /** A key saved in the public scope is not found in any user's scope, so a
      publicly encrypted file cannot be decrypted through a user's map. */
  lemma PublicKeyInvisibleToUsers(t: Tables, dataDir: string, c: Suite, name: string, stored: string,
                                  username: string, filename: string, priv: Bytes)
    ensures GetPrivateKey(Put(t, KeysFile(dataDir), name, stored), dataDir, c, username, filename, priv)
         == GetPrivateKey(t, dataDir, c, username, filename, priv)
  {
    PrivateKeysFileIsolated(dataDir, username);
  }

  // ---------------------------------------------------------------------------
  // The effects of the operations, as functions of the state before them

  /** The tables after saveKey or savePrivateKey: `key` wrapped under `pub` is
      stored as entry `filename` of the map at `path`, replacing any earlier
      entry; if the RSA step fails nothing is stored. */
  function StoreWrapped(c: Suite, t: Tables, path: string, filename: string, key: Bytes, pub: Bytes)
    : (r: Result<Tables>)
    ensures r.Err? ==> r.error == WrapFailure
    ensures r.Ok? ==> Lookup(r.value, path, filename).Some?
    ensures r.Ok? ==> forall p, k :: (p != path || k != filename) ==> Lookup(r.value, p, k) == Lookup(t, p, k)
  {
    match WrapKey(c, key, pub)
    case None => Err(WrapFailure)
    case Some(w) => Ok(Put(t, path, filename, w))
  }

  /** What is stored unwraps to the key under the matching private key. */
  lemma StoreWrappedUnwraps(c: Suite, t: Tables, path: string, filename: string, key: Bytes,
                            pub: Bytes, priv: Bytes)
    requires Sound(c) && c.isKeyPair(pub, priv) && key != []
    requires StoreWrapped(c, t, path, filename, key, pub).Ok?
    ensures UnwrapKey(c, Lookup(StoreWrapped(c, t, path, filename, key, pub).value, path, filename).value, priv)
         == Ok(key)
  {
    UnwrapWrapped(c, key, pub, priv);
  }

  /** The files after encryptFile(input, output, key): the ciphertext is
      written to `output`, then `input` is deleted. A missing input or a
      cipher failure aborts before anything is written. */
  function EncryptedFiles(c: Suite, files: map<string, Bytes>, input: string, output: string, key: Bytes)
    : (r: Result<map<string, Bytes>>)
    ensures input !in files ==> r == Err(NoSuchFile(input))
    ensures r.Err? ==> r.error == NoSuchFile(input) || r.error == CipherFailure
    ensures r.Ok? ==> input in files && input !in r.value && Untouched(files, r.value, {input, output})
    ensures r.Ok? && output != input ==>
      output in r.value && (Sound(c) ==> c.aesDecrypt(r.value[output], key) == Some(files[input]))
  {
    if input !in files then Err(NoSuchFile(input))
    else match c.aesEncrypt(files[input], key)
      case None => Err(CipherFailure)
      case Some(ct) => Ok(files[output := ct] - {input})
  }

  /** The files after the decrypting steps of decryptFile and
      decryptFilePrivate: the plaintext is written to `dest`, then `input` is
      deleted. A missing input or a cipher failure aborts before anything is
      written. */
  function DecryptedFiles(c: Suite, files: map<string, Bytes>, input: string, dest: string, key: Bytes)
    : (r: Result<map<string, Bytes>>)
    ensures input !in files ==> r == Err(NoSuchFile(input))
    ensures r.Err? ==> r.error == NoSuchFile(input) || r.error == CipherFailure
    ensures r.Ok? ==> input in files && input !in r.value && Untouched(files, r.value, {input, dest})
    ensures r.Ok? && dest != input ==> dest in r.value && c.aesDecrypt(files[input], key) == Some(r.value[dest])
  {
    if input !in files then Err(NoSuchFile(input))
    else match c.aesDecrypt(files[input], key)
      case None => Err(CipherFailure)
      case Some(pt) => Ok(files[dest := pt] - {input})
  }

  /** A file encrypted to `output` and then decrypted from there to `dest`
      comes back with its original contents, and the ciphertext is gone. */
  lemma DecryptEncrypted(c: Suite, files: map<string, Bytes>, input: string, output: string, key: Bytes,
                         dest: string)
    requires Sound(c) && output != input && output != dest
    requires EncryptedFiles(c, files, input, output, key).Ok?
    ensures var back := DecryptedFiles(c, EncryptedFiles(c, files, input, output, key).value, output, dest, key);
      back.Ok? && dest in back.value && back.value[dest] == files[input] && output !in back.value
  {
    var after := EncryptedFiles(c, files, input, output, key).value;
    assert c.aesDecrypt(after[output], key) == Some(files[input]);
  }

  // ---------------------------------------------------------------------------
  // Operations that change the store or the files

  /** saveKey: wrap the AES key under the public key and store it in the
      public map under `filename`. */
  method SaveKey(store: LocalStorage, c: Suite, filename: string, key: Bytes, pub: Bytes) returns (r: Outcome)
    modifies store
    ensures var n := StoreWrapped(c, old(store.tables), KeysFile(store.dataDir), filename, key, pub);
      && (n.Err? ==> r == Fail(n.error) && store.tables == old(store.tables))
      && (n.Ok? ==> r == Pass && store.tables == n.value)
  {
    var encryptedKey := c.rsaEncrypt(key, pub);
    if encryptedKey.None? {
      return Fail(WrapFailure);
    }
    var encryptedKeyBase64 := c.base64Encode(encryptedKey.value);
    store.SaveKey(filename, encryptedKeyBase64);
    r := Pass;
  }

  /** deleteKey: remove the public entry of the file's key id. */
  method DeleteKey(store: LocalStorage, filename: string)
    modifies store
    ensures store.tables == Remove(old(store.tables), KeysFile(store.dataDir), KeyId(filename))
  {
    store.DeleteKey(KeyId(filename));
  }

  /** savePrivateKey: wrap the AES key under the user's public key and store
      it in that user's map; the public map is untouched. */
  method SavePrivateKey(store: LocalStorage, c: Suite, username: string, filename: string, key: Bytes, pub: Bytes)
    returns (r: Outcome)
    modifies store
    ensures var n := StoreWrapped(c, old(store.tables), PrivateKeysFile(store.dataDir, username), filename, key, pub);
      && (n.Err? ==> r == Fail(n.error) && store.tables == old(store.tables))
      && (n.Ok? ==> r == Pass && store.tables == n.value)
  {
    var encryptedKey := c.rsaEncrypt(key, pub);
    if encryptedKey.None? {
      return Fail(WrapFailure);
    }
    var encryptedKeyBase64 := c.base64Encode(encryptedKey.value);
    store.SavePrivateKey(username, filename, encryptedKeyBase64);
    r := Pass;
  }

  /** saveAdmin: the public key and the encrypted private key are Base64'd and stored. */
  method SaveAdmin(store: LocalStorage, c: Suite, username: string, hash: string, pub: Bytes, encryptedPriv: Bytes)
    modifies store
    ensures store.tables == WithAccount(old(store.tables), AdminsFile(store.dataDir), username, hash,
                                        c.base64Encode(pub), c.base64Encode(encryptedPriv))
    ensures store.AdminExists(username)
  {
    store.SaveAdmin(username, hash, c.base64Encode(pub), c.base64Encode(encryptedPriv));
  }

  /** encryptFile */
  method EncryptFile(fs: FileSystem, c: Suite, input: string, output: string, key: Bytes) returns (r: Outcome)
    modifies fs
    ensures var n := EncryptedFiles(c, old(fs.files), input, output, key);
      && (n.Err? ==> r == Fail(n.error) && fs.files == old(fs.files))
      && (n.Ok? ==> r == Pass && fs.files == n.value)
  {
    var inputBytes := fs.ReadAllBytes(input);
    if inputBytes.Err? {
      return Fail(inputBytes.error);
    }
    var outputBytes := c.aesEncrypt(inputBytes.value, key);
    if outputBytes.None? {
      return Fail(CipherFailure);
    }
    fs.Write(output, outputBytes.value);
    fs.Delete(input);
    r := Pass;
  }

  /** encryptFilePrivate: as encryptFile, but the ciphertext goes to the
      user's private directory under the output file's name. */
  method EncryptFilePrivate(fs: FileSystem, c: Suite, input: string, output: string, key: Bytes, username: string)
    returns (r: Outcome)
    modifies fs
    ensures var n := EncryptedFiles(c, old(fs.files), input,
                                    Join(PrivateEncryptedDir(fs.home, username), FileName(output)), key);
      && (n.Err? ==> r == Fail(n.error) && fs.files == old(fs.files))
      && (n.Ok? ==> r == Pass && fs.files == n.value)
  {
    var inputBytes := fs.ReadAllBytes(input);
    if inputBytes.Err? {
      return Fail(inputBytes.error);
    }
    var outputBytes := c.aesEncrypt(inputBytes.value, key);
    if outputBytes.None? {
      return Fail(CipherFailure);
    }
    var outputPath := Join(PrivateEncryptedDir(fs.home, username), FileName(output));
    fs.Write(outputPath, outputBytes.value);
    fs.Delete(input);
    r := Pass;
  }

  /** The steps decryptFile and decryptFilePrivate share once the key is
      known: read and decrypt the input, write the plaintext as `name` in
      `dir`, remove the public entry of the input's key id, delete the input.
      Paths.get(dir, name) is a directory when the name is "", "." or "..",
      and Files.write refuses it: such a name fails after decryption, before
      anything is written. */
  method DecryptInto(store: LocalStorage, fs: FileSystem, c: Suite, input: string, dir: string, name: string,
                     key: Bytes) returns (r: Outcome)
    modifies store, fs
    ensures var n := DecryptedFiles(c, old(fs.files), input, Join(dir, name), key);
      && (n.Err? ==> r == Fail(n.error) && fs.files == old(fs.files) && store.tables == old(store.tables))
      && (n.Ok? && ResolvesToDirectory(name) ==>
            r == Fail(IsDirectory(dir)) && fs.files == old(fs.files) && store.tables == old(store.tables))
      && (n.Ok? && !ResolvesToDirectory(name) ==>
            && r == Pass
            && fs.files == n.value
            && store.tables == Remove(old(store.tables), KeysFile(store.dataDir), KeyId(FileName(input))))
  {
    var inputBytes := fs.ReadAllBytes(input);
    if inputBytes.Err? {
      return Fail(inputBytes.error);
    }
    var outputBytes := c.aesDecrypt(inputBytes.value, key);
    if outputBytes.None? {
      return Fail(CipherFailure);
    }
    if ResolvesToDirectory(name) {
      return Fail(IsDirectory(dir));
    }
    fs.Write(Join(dir, name), outputBytes.value);
    DeleteKey(store, FileName(input));
    fs.Delete(input);
    r := Pass;
  }

  /** decryptFile: the plaintext goes to the fixed decrypted directory under
      the output file's name; then the public entry of the input's key id is
      removed; then the input is deleted. On failure nothing changes. */
  method DecryptFile(store: LocalStorage, fs: FileSystem, c: Suite, input: string, output: string, key: Bytes)
    returns (r: Outcome)
    modifies store, fs
    ensures var n := DecryptedFiles(c, old(fs.files), input, Join(DecryptedDir(fs.home), FileName(output)), key);
      && (n.Err? ==> r == Fail(n.error) && fs.files == old(fs.files) && store.tables == old(store.tables))
      && (n.Ok? && ResolvesToDirectory(FileName(output)) ==>
            r == Fail(IsDirectory(DecryptedDir(fs.home))) && fs.files == old(fs.files) && store.tables == old(store.tables))
      && (n.Ok? && !ResolvesToDirectory(FileName(output)) ==>
            && r == Pass
            && fs.files == n.value
            && store.tables == Remove(old(store.tables), KeysFile(store.dataDir), KeyId(FileName(input))))
  {
    r := DecryptInto(store, fs, c, input, DecryptedDir(fs.home), FileName(output), key);
  }

  /** decryptFilePrivate: the key is fetched with getKey, so from the public
      map, and the public entry is the one removed; the plaintext goes to the
      user's private decrypted directory. On failure nothing changes. */
  method DecryptFilePrivate(store: LocalStorage, fs: FileSystem, c: Suite, input: string, output: string,
                            priv: Bytes, username: string) returns (r: Outcome)
    modifies store, fs
    ensures var k := GetKey(old(store.tables), store.dataDir, c, FileName(input), priv);
      && (k.Err? ==> r == Fail(k.error) && fs.files == old(fs.files) && store.tables == old(store.tables))
      && (k.Ok? ==>
            var dir := PrivateDecryptedDir(fs.home, username);
            var n := DecryptedFiles(c, old(fs.files), input, Join(dir, FileName(output)), k.value);
            && (n.Err? ==> r == Fail(n.error) && fs.files == old(fs.files) && store.tables == old(store.tables))
            && (n.Ok? && ResolvesToDirectory(FileName(output)) ==>
                  r == Fail(IsDirectory(dir)) && fs.files == old(fs.files) && store.tables == old(store.tables))
            && (n.Ok? && !ResolvesToDirectory(FileName(output)) ==>
                  && r == Pass
                  && fs.files == n.value
                  && store.tables == Remove(old(store.tables), KeysFile(store.dataDir), KeyId(FileName(input)))))
  {
    var aesKey := GetKey(store.tables, store.dataDir, c, FileName(input), priv);
    if aesKey.Err? {
      return Fail(aesKey.error);
    }
    r := DecryptInto(store, fs, c, input, PrivateDecryptedDir(fs.home, username), FileName(output), aesKey.value);
  }
}
