/** LocalStorage: the key/value store that replaces a database. Each named map
    is a properties file under the data directory; every operation loads one
    file (a missing file reads as an empty map), changes it and writes it back.
    The store's state is the parsed contents of every properties file on disk. */
module Storage {
  import opened Common

  /** The contents of one properties file. */
  type Props = map<string, string>

  /** Every properties file on disk, by path. */
  type Tables = map<string, Props>

  // ---------------------------------------------------------------------------
  // Where the maps live

  function DataDir(home: string): string {
    home + "/Documents/cs/data"
  }

  function AdminsFile(dataDir: string): string {
    dataDir + "/admins.properties"
  }

  function UsersFile(dataDir: string): string {
    dataDir + "/users.properties"
  }

  /** The public wrapped-key map, keyed by file name. */
  function KeysFile(dataDir: string): string {
    dataDir + "/keys.properties"
  }

  /** One user's wrapped-key map. There is no separator between the data
      directory and "private_keys_", so the file sits beside the data
      directory rather than inside it. */
  function PrivateKeysFile(dataDir: string, username: string): string {
    dataDir + "private_keys_" + username + ".properties"
  }

  // ---------------------------------------------------------------------------
  // Entry names inside the users and admins maps

  /** The three entries an account keeps, each named `<user>` + a suffix. */
  datatype Field = PasswordHash | PublicKey | PrivateKeyEncrypted

  function Suffix(f: Field): string {
    match f
    case PasswordHash => ".password_hash"
    case PublicKey => ".public_key"
    case PrivateKeyEncrypted => ".private_key_encrypted"
  }

  function Entry(username: string, f: Field): string {
    username + Suffix(f)
  }

  const SystemPublicEntry := "system.public_key"
  const SystemPrivateEntry := "system.private_key"

  // ---------------------------------------------------------------------------
  // Reading and writing the tables

  /** loadProperties: a file that does not exist reads as the empty map. */
  function Load(t: Tables, path: string): (props: Props)
    ensures path !in t ==> props == map[]
  {
    if path in t then t[path] else map[]
  }

  /** Properties.getProperty after loadProperties. */
  function Lookup(t: Tables, path: string, key: string): (r: Option<string>)
    ensures r.Some? <==> key in Load(t, path)
    ensures r.Some? ==> r.value == Load(t, path)[key]
  {
    var props := Load(t, path);
    if key in props then Some(props[key]) else None
  }

  /** Load, setProperty, save: the entry reads back as `value` (an earlier
      value is silently replaced) and every other entry of every file reads
      as before. */
  function Put(t: Tables, path: string, key: string, value: string): (r: Tables)
    ensures Lookup(r, path, key) == Some(value)
    ensures forall p, k :: (p != path || k != key) ==> Lookup(r, p, k) == Lookup(t, p, k)
  {
    t[path := Load(t, path)[key := value]]
  }

  /** Load, remove, save: the entry reads as absent and every other entry of
      every file reads as before; removing an absent entry leaves the loaded
      map equal. */
  function Remove(t: Tables, path: string, key: string): (r: Tables)
    ensures Lookup(r, path, key) == None
    ensures forall p, k :: (p != path || k != key) ==> Lookup(r, p, k) == Lookup(t, p, k)
    ensures key !in Load(t, path) ==> Load(r, path) == Load(t, path)
  {
    t[path := Load(t, path) - {key}]
  }

  /** The three entries of an account, set in one load/save of `path`. */
  function WithAccount(t: Tables, path: string, username: string,
                       hash: string, pub: string, priv: string): Tables
  {
    var t1 := Put(t, path, Entry(username, PasswordHash), hash);
    var t2 := Put(t1, path, Entry(username, PublicKey), pub);
    Put(t2, path, Entry(username, PrivateKeyEncrypted), priv)
  }

  /** The tables after saveUser. */
  function WithUser(t: Tables, dataDir: string, username: string,
                    hash: string, pub: string, priv: string): (r: Tables)
    ensures forall p, k :: p != UsersFile(dataDir) ==> Lookup(r, p, k) == Lookup(t, p, k)
  {
    WithAccount(t, UsersFile(dataDir), username, hash, pub, priv)
  }

  /** The tables after saveSystemRSAKeys: both halves in one update of the users map. */
  function WithSystemKeys(t: Tables, dataDir: string, pub: string, priv: string): (r: Tables)
    ensures Lookup(r, UsersFile(dataDir), SystemPrivateEntry) == Some(priv)
    ensures forall p, k :: p != UsersFile(dataDir) ==> Lookup(r, p, k) == Lookup(t, p, k)
  {
    Put(Put(t, UsersFile(dataDir), SystemPublicEntry, pub), UsersFile(dataDir), SystemPrivateEntry, priv)
  }

  /** userExists: a password hash is stored for the name. */
  predicate HasUser(t: Tables, dataDir: string, username: string)
    ensures HasUser(t, dataDir, username) <==> Entry(username, PasswordHash) in Load(t, UsersFile(dataDir))
  {
    Lookup(t, UsersFile(dataDir), Entry(username, PasswordHash)).Some?
  }

  /** adminExists */
  predicate HasAdmin(t: Tables, dataDir: string, username: string)
    ensures HasAdmin(t, dataDir, username) <==> Entry(username, PasswordHash) in Load(t, AdminsFile(dataDir))
  {
    Lookup(t, AdminsFile(dataDir), Entry(username, PasswordHash)).Some?
  }

  /** systemKeysExist: both halves are stored. */
  predicate HasSystemKeys(t: Tables, dataDir: string)
    ensures HasSystemKeys(t, dataDir) <==>
      SystemPublicEntry in Load(t, UsersFile(dataDir)) && SystemPrivateEntry in Load(t, UsersFile(dataDir))
  {
    Lookup(t, UsersFile(dataDir), SystemPublicEntry).Some? &&
    Lookup(t, UsersFile(dataDir), SystemPrivateEntry).Some?
  }

  // ---------------------------------------------------------------------------
  // Properties of the naming scheme

  /** Two account entries coincide only for the same user and the same field:
      the three suffixes end in different characters. */
  lemma EntryInjective(u1: string, f1: Field, u2: string, f2: Field)
    requires Entry(u1, f1) == Entry(u2, f2)
    ensures u1 == u2 && f1 == f2
  {
    var e := Entry(u1, f1);
    assert e[|e| - 1] == Suffix(f1)[|Suffix(f1)| - 1] == Suffix(f2)[|Suffix(f2)| - 1];
    assert f1 == f2;
    assert u1 == e[..|u1|] == u2;
  }

  /** The system's public half shares its name with the account entry of a
      user called "system"; its private half shares a name with no account entry. */
  lemma SystemEntries(u: string, f: Field)
    ensures Entry(u, f) == SystemPublicEntry <==> u == "system" && f == PublicKey
    ensures Entry(u, f) != SystemPrivateEntry
  {
    var e := Entry(u, f);
    if e == SystemPublicEntry {
      assert e[|e| - 1] == 'y';
      assert Suffix(f)[|Suffix(f)| - 1] == 'y';
      assert f == PublicKey;
      assert u == e[..|e| - 11] == "system";
    }
    match f
    case PasswordHash =>
      assert e[|e| - 1] == 'h' != SystemPrivateEntry[|SystemPrivateEntry| - 1];
    case PublicKey =>
      if |e| == |SystemPrivateEntry| {
        assert e[|u|] == '.' != SystemPrivateEntry[|u|];
      }
    case PrivateKeyEncrypted =>
  }

  /** Each user's wrapped-key map is a different file... */
  lemma PrivateKeysFileInjective(dataDir: string, u1: string, u2: string)
    requires PrivateKeysFile(dataDir, u1) == PrivateKeysFile(dataDir, u2)
    ensures u1 == u2
  {
    var p := PrivateKeysFile(dataDir, u1);
    var n := |dataDir + "private_keys_"|;
    assert |u1| == |u2|;
    assert u1 == p[n..n + |u1|] == u2;
  }

  /** ...and none of them is the public key map, the users map or the admins map:
      after the data directory they start with 'p', the shared files with '/'. */
  lemma PrivateKeysFileIsolated(dataDir: string, username: string)
    ensures PrivateKeysFile(dataDir, username) != KeysFile(dataDir)
    ensures PrivateKeysFile(dataDir, username) != UsersFile(dataDir)
    ensures PrivateKeysFile(dataDir, username) != AdminsFile(dataDir)
  {
    var i := |dataDir|;
    assert PrivateKeysFile(dataDir, username)[i] == 'p';
    assert KeysFile(dataDir)[i] == '/';
    assert UsersFile(dataDir)[i] == '/';
    assert AdminsFile(dataDir)[i] == '/';
  }

  /** The three shared files are distinct. */
  lemma SharedFilesDistinct(dataDir: string)
    ensures KeysFile(dataDir) != UsersFile(dataDir)
    ensures KeysFile(dataDir) != AdminsFile(dataDir)
    ensures UsersFile(dataDir) != AdminsFile(dataDir)
  {
    var i := |dataDir| + 1;
    assert KeysFile(dataDir)[i] == 'k';
    assert UsersFile(dataDir)[i] == 'u';
    assert AdminsFile(dataDir)[i] == 'a';
  }

  // ---------------------------------------------------------------------------
  // Properties of the account operations

  /** After saving an account, its three entries read back as saved. */
  lemma AccountReadBack(t: Tables, path: string, username: string, hash: string, pub: string, priv: string)
    ensures var r := WithAccount(t, path, username, hash, pub, priv);
      && Lookup(r, path, Entry(username, PasswordHash)) == Some(hash)
      && Lookup(r, path, Entry(username, PublicKey)) == Some(pub)
      && Lookup(r, path, Entry(username, PrivateKeyEncrypted)) == Some(priv)
  {
    if Entry(username, PasswordHash) == Entry(username, PublicKey) {
      EntryInjective(username, PasswordHash, username, PublicKey);
    }
    if Entry(username, PasswordHash) == Entry(username, PrivateKeyEncrypted) {
      EntryInjective(username, PasswordHash, username, PrivateKeyEncrypted);
    }
    if Entry(username, PublicKey) == Entry(username, PrivateKeyEncrypted) {
      EntryInjective(username, PublicKey, username, PrivateKeyEncrypted);
    }
  }

  /** Saving one account changes no entry of another account in the same map,
      and no entry of any other file. */
  lemma AccountIsolation(t: Tables, path: string, username: string, hash: string, pub: string, priv: string,
                         p: string, other: string, f: Field)
    requires p != path || other != username
    ensures Lookup(WithAccount(t, path, username, hash, pub, priv), p, Entry(other, f)) == Lookup(t, p, Entry(other, f))
  {
    if p == path {
      forall g: Field ensures Entry(other, f) != Entry(username, g) {
        if Entry(other, f) == Entry(username, g) {
          EntryInjective(other, f, username, g);
        }
      }
    }
  }

  /** saveUser(u, ...) leaves every entry of every other user as it was. */
  lemma SaveUserKeepsOthers(t: Tables, dataDir: string, username: string, hash: string, pub: string, priv: string)
    ensures forall other, f :: other != username ==>
      Lookup(WithUser(t, dataDir, username, hash, pub, priv), UsersFile(dataDir), Entry(other, f))
        == Lookup(t, UsersFile(dataDir), Entry(other, f))
  {
    forall other, f | other != username
      ensures Lookup(WithUser(t, dataDir, username, hash, pub, priv), UsersFile(dataDir), Entry(other, f))
           == Lookup(t, UsersFile(dataDir), Entry(other, f))
    {
      SaveUserIsolation(t, dataDir, username, hash, pub, priv, other, f);
    }
  }

  /** saveUser makes userExists hold and the three getters answer what was saved. */
  lemma SaveUserReadBack(t: Tables, dataDir: string, username: string, hash: string, pub: string, priv: string)
    ensures var r := WithUser(t, dataDir, username, hash, pub, priv);
      && HasUser(r, dataDir, username)
      && Lookup(r, UsersFile(dataDir), Entry(username, PasswordHash)) == Some(hash)
      && Lookup(r, UsersFile(dataDir), Entry(username, PublicKey)) == Some(pub)
      && Lookup(r, UsersFile(dataDir), Entry(username, PrivateKeyEncrypted)) == Some(priv)
  {
    AccountReadBack(t, UsersFile(dataDir), username, hash, pub, priv);
  }

  /** saveUser(u, ...) leaves every other user's entries as they were. */
  lemma SaveUserIsolation(t: Tables, dataDir: string, username: string, hash: string, pub: string, priv: string,
                          other: string, f: Field)
    requires other != username
    ensures Lookup(WithUser(t, dataDir, username, hash, pub, priv), UsersFile(dataDir), Entry(other, f))
         == Lookup(t, UsersFile(dataDir), Entry(other, f))
    ensures HasUser(WithUser(t, dataDir, username, hash, pub, priv), dataDir, other) == HasUser(t, dataDir, other)
  {
    AccountIsolation(t, UsersFile(dataDir), username, hash, pub, priv, UsersFile(dataDir), other, f);
    AccountIsolation(t, UsersFile(dataDir), username, hash, pub, priv, UsersFile(dataDir), other, PasswordHash);
  }

  /** The system keys live in the users map under the `<name>.` scheme:
      saving a user called "system" replaces the system's public half, and
      no saveUser ever touches the private half. */
  lemma SaveUserSystemCollision(t: Tables, dataDir: string, username: string, hash: string, pub: string, priv: string)
    ensures var r := WithUser(t, dataDir, username, hash, pub, priv);
      && Lookup(r, UsersFile(dataDir), SystemPublicEntry)
         == (if username == "system" then Some(pub) else Lookup(t, UsersFile(dataDir), SystemPublicEntry))
      && Lookup(r, UsersFile(dataDir), SystemPrivateEntry) == Lookup(t, UsersFile(dataDir), SystemPrivateEntry)
  {
    SystemEntries(username, PasswordHash);
    SystemEntries(username, PublicKey);
    SystemEntries(username, PrivateKeyEncrypted);
  }

  /** saveSystemRSAKeys stores both halves, so systemKeysExist holds after it,
      and it leaves every account entry whose name is not the public half's. */
  lemma SaveSystemKeysReadBack(t: Tables, dataDir: string, pub: string, priv: string)
    ensures var r := WithSystemKeys(t, dataDir, pub, priv);
      && HasSystemKeys(r, dataDir)
      && Lookup(r, UsersFile(dataDir), SystemPublicEntry) == Some(pub)
      && Lookup(r, UsersFile(dataDir), SystemPrivateEntry) == Some(priv)
    ensures forall u, f :: Entry(u, f) != SystemPublicEntry ==>
      Lookup(WithSystemKeys(t, dataDir, pub, priv), UsersFile(dataDir), Entry(u, f))
        == Lookup(t, UsersFile(dataDir), Entry(u, f))
  {
    assert SystemPublicEntry[8] != SystemPrivateEntry[8];
    forall u, f ensures Entry(u, f) != SystemPrivateEntry {
      SystemEntries(u, f);
    }
  }

  /** A per-user key write changes nothing another user, or the public map, reads. */
  lemma SavePrivateKeyIsolation(t: Tables, dataDir: string, username: string, filename: string, value: string,
                                other: string, g: string)
    requires other != username
    ensures var r := Put(t, PrivateKeysFile(dataDir, username), filename, value);
      && Lookup(r, PrivateKeysFile(dataDir, other), g) == Lookup(t, PrivateKeysFile(dataDir, other), g)
      && Lookup(r, KeysFile(dataDir), g) == Lookup(t, KeysFile(dataDir), g)
      && Lookup(r, UsersFile(dataDir), g) == Lookup(t, UsersFile(dataDir), g)
  {
    if PrivateKeysFile(dataDir, other) == PrivateKeysFile(dataDir, username) {
      PrivateKeysFileInjective(dataDir, other, username);
    }
    PrivateKeysFileIsolated(dataDir, username);
  }

  /** A properties file that does not exist reads as empty, whatever other
      files exist. */
  lemma MissingFileReadsAbsent(t: Tables, path: string, key: string)
    requires path !in t
    ensures Load(t, path) == map[] && Lookup(t, path, key) == None
  {
  }

  // ---------------------------------------------------------------------------
  // The store itself

  class LocalStorage {
    /** user.home + "/Documents/cs/data" */
    const dataDir: string
    /** The parsed contents of every properties file on disk. */
    var tables: Tables

    constructor(home: string, onDisk: Tables)
      ensures dataDir == DataDir(home) && tables == onDisk
    {
      dataDir := DataDir(home);
      tables := onDisk;
    }

    /** saveProperties */
    method SaveProperties(props: Props, path: string)
      modifies this
      ensures tables == old(tables)[path := props]
    {
      tables := tables[path := props];
    }

    method SaveAdmin(username: string, hash: string, pub: string, priv: string)
      modifies this
      ensures tables == WithAccount(old(tables), AdminsFile(dataDir), username, hash, pub, priv)
      ensures AdminExists(username)
    {
      var props := Load(tables, AdminsFile(dataDir));
      props := props[Entry(username, PasswordHash) := hash];
      props := props[Entry(username, PublicKey) := pub];
      props := props[Entry(username, PrivateKeyEncrypted) := priv];
      SaveProperties(props, AdminsFile(dataDir));
      AccountReadBack(old(tables), AdminsFile(dataDir), username, hash, pub, priv);
    }

    function GetAdminPasswordHash(username: string): (r: Option<string>)
      reads this
      ensures r.Some? <==> AdminsFile(dataDir) in tables && Entry(username, PasswordHash) in tables[AdminsFile(dataDir)]
      ensures r.Some? ==> r.value == tables[AdminsFile(dataDir)][Entry(username, PasswordHash)]
    {
      Lookup(tables, AdminsFile(dataDir), Entry(username, PasswordHash))
    }

    predicate AdminExists(username: string)
      reads this
      ensures AdminExists(username) <==> GetAdminPasswordHash(username).Some?
    {
      HasAdmin(tables, dataDir, username)
    }

    method SaveUser(username: string, hash: string, pub: string, priv: string)
      modifies this
      ensures tables == WithUser(old(tables), dataDir, username, hash, pub, priv)
      ensures UserExists(username)
      ensures GetUserPasswordHash(username) == Some(hash)
      ensures GetUserPublicKey(username) == Some(pub)
      ensures GetUserPrivateKey(username) == Some(priv)
    {
      var props := Load(tables, UsersFile(dataDir));
      props := props[Entry(username, PasswordHash) := hash];
      props := props[Entry(username, PublicKey) := pub];
      props := props[Entry(username, PrivateKeyEncrypted) := priv];
      SaveProperties(props, UsersFile(dataDir));
      SaveUserReadBack(old(tables), dataDir, username, hash, pub, priv);
    }

    function GetUserPasswordHash(username: string): (r: Option<string>)
      reads this
      ensures r.Some? <==> UsersFile(dataDir) in tables && Entry(username, PasswordHash) in tables[UsersFile(dataDir)]
      ensures r.Some? ==> r.value == tables[UsersFile(dataDir)][Entry(username, PasswordHash)]
    {
      Lookup(tables, UsersFile(dataDir), Entry(username, PasswordHash))
    }

    function GetUserPublicKey(username: string): (r: Option<string>)
      reads this
      ensures r.Some? <==> UsersFile(dataDir) in tables && Entry(username, PublicKey) in tables[UsersFile(dataDir)]
      ensures r.Some? ==> r.value == tables[UsersFile(dataDir)][Entry(username, PublicKey)]
    {
      Lookup(tables, UsersFile(dataDir), Entry(username, PublicKey))
    }

    function GetUserPrivateKey(username: string): (r: Option<string>)
      reads this
      ensures r.Some? <==> UsersFile(dataDir) in tables && Entry(username, PrivateKeyEncrypted) in tables[UsersFile(dataDir)]
      ensures r.Some? ==> r.value == tables[UsersFile(dataDir)][Entry(username, PrivateKeyEncrypted)]
    {
      Lookup(tables, UsersFile(dataDir), Entry(username, PrivateKeyEncrypted))
    }

    predicate UserExists(username: string)
      reads this
      ensures UserExists(username) <==> GetUserPasswordHash(username).Some?
    {
      HasUser(tables, dataDir, username)
    }

    method SaveKey(filename: string, wrapped: string)
      modifies this
      ensures tables == Put(old(tables), KeysFile(dataDir), filename, wrapped)
      ensures GetKey(filename) == Some(wrapped)
      ensures forall g :: g != filename ==> GetKey(g) == old(GetKey(g))
    {
      var props := Load(tables, KeysFile(dataDir));
      props := props[filename := wrapped];
      SaveProperties(props, KeysFile(dataDir));
    }

    function GetKey(filename: string): (r: Option<string>)
      reads this
      ensures r.Some? <==> KeysFile(dataDir) in tables && filename in tables[KeysFile(dataDir)]
      ensures r.Some? ==> r.value == tables[KeysFile(dataDir)][filename]
    {
      Lookup(tables, KeysFile(dataDir), filename)
    }

    method DeleteKey(filename: string)
      modifies this
      ensures tables == Remove(old(tables), KeysFile(dataDir), filename)
      ensures GetKey(filename) == None
      ensures forall g :: g != filename ==> GetKey(g) == old(GetKey(g))
    {
      var props := Load(tables, KeysFile(dataDir));
      props := props - {filename};
      SaveProperties(props, KeysFile(dataDir));
    }

    method SaveSystemRSAKeys(pub: string, priv: string)
      modifies this
      ensures tables == WithSystemKeys(old(tables), dataDir, pub, priv)
      ensures SystemKeysExist()
      ensures GetSystemPublicKey() == Some(pub) && GetSystemPrivateKey() == Some(priv)
    {
      var props := Load(tables, UsersFile(dataDir));
      props := props[SystemPublicEntry := pub];
      props := props[SystemPrivateEntry := priv];
      SaveProperties(props, UsersFile(dataDir));
      SaveSystemKeysReadBack(old(tables), dataDir, pub, priv);
    }

    function GetSystemPublicKey(): (r: Option<string>)
      reads this
      ensures r.Some? <==> UsersFile(dataDir) in tables && SystemPublicEntry in tables[UsersFile(dataDir)]
      ensures r.Some? ==> r.value == tables[UsersFile(dataDir)][SystemPublicEntry]
    {
      Lookup(tables, UsersFile(dataDir), SystemPublicEntry)
    }

    function GetSystemPrivateKey(): (r: Option<string>)
      reads this
      ensures r.Some? <==> UsersFile(dataDir) in tables && SystemPrivateEntry in tables[UsersFile(dataDir)]
      ensures r.Some? ==> r.value == tables[UsersFile(dataDir)][SystemPrivateEntry]
    {
      Lookup(tables, UsersFile(dataDir), SystemPrivateEntry)
    }

    predicate SystemKeysExist()
      reads this
      ensures SystemKeysExist() <==> GetSystemPublicKey().Some? && GetSystemPrivateKey().Some?
    {
      HasSystemKeys(tables, dataDir)
    }

    method SavePrivateKey(username: string, filename: string, wrapped: string)
      modifies this
      ensures tables == Put(old(tables), PrivateKeysFile(dataDir, username), filename, wrapped)
      ensures GetPrivateKey(username, filename) == Some(wrapped)
      ensures forall g :: GetKey(g) == old(GetKey(g))
      ensures forall other, g :: other != username ==> GetPrivateKey(other, g) == old(GetPrivateKey(other, g))
    {
      var path := PrivateKeysFile(dataDir, username);
      var props := Load(tables, path);
      props := props[filename := wrapped];
      SaveProperties(props, path);
      forall other, g | other != username
        ensures GetPrivateKey(other, g) == old(GetPrivateKey(other, g))
      {
        SavePrivateKeyIsolation(old(tables), dataDir, username, filename, wrapped, other, g);
      }
      PrivateKeysFileIsolated(dataDir, username);
    }

    function GetPrivateKey(username: string, filename: string): (r: Option<string>)
      reads this
      ensures r.Some? <==> PrivateKeysFile(dataDir, username) in tables && filename in tables[PrivateKeysFile(dataDir, username)]
      ensures r.Some? ==> r.value == tables[PrivateKeysFile(dataDir, username)][filename]
    {
      Lookup(tables, PrivateKeysFile(dataDir, username), filename)
    }
  }
}
