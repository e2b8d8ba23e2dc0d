/** The vault (`vault.rs`): the master key in memory, its wrap for this host and its wrap under the recovery
    passphrase, and the routes that seal and open saved credentials (`web.rs`, `app.rs`). Randomness comes in
    as parameters. */
module Vault {
  import opened Common
  import opened Crypto

  // ---- what each operation makes of a database ----------------------------------------------------

  function Protect(host: nat, key: Key): Blob { Sealed(Host(host), AAD_LOCAL, KeyPlain(key)) }

  function Unprotect(host: nat, blob: Blob): Option<Key> {
    match OpenBlob(Host(host), AAD_LOCAL, blob)
    case None => None
    case Some(plain) => if plain.KeyPlain? then Some(plain.key) else None
  }

  /** Start: the key this host can open, a new one for a new database, or none. */
  function Loaded(db: Database, host: nat, random: nat): (Database, Option<Key>) {
    match db.local
    case Some(blob) => (db, Unprotect(host, blob))
    case None =>
      if db.recovery.Some? then (db, None)
      else (db.(local := Some(Protect(host, Master(random)))), Some(Master(random)))
  }

  function RecoverySet(db: Database, master: Option<Key>, current: Option<string>, next: string, salt: nat)
    : Result<Database, VaultError>
  {
    if master.None? then Err(Locked)
    else if |next| < MIN_PASSPHRASE then Err(Weak)
    else if db.recovery.Some? then
      if current.None? then Err(WrongPassphrase)
      else match UnwrapRecovery(db.recovery.value, current.value)
        case Err(e) => Err(e)
        case Ok(key) =>
          if key != master.value then Err(WrongPassphrase)
          else Ok(db.(recovery := Some(WrapRecovery(master.value, next, salt))))
    else Ok(db.(recovery := Some(WrapRecovery(master.value, next, salt))))
  }

  function RecoveryReplaced(db: Database, master: Option<Key>, next: string, salt: nat): Result<Database, VaultError> {
    if master.None? then Err(Locked)
    else if |next| < MIN_PASSPHRASE then Err(Weak)
    else Ok(db.(recovery := Some(WrapRecovery(master.value, next, salt))))
  }

  function Restarted(db: Database, host: nat, random: nat): Database {
    db.(credentials := map[], directoryPassword := None, recovery := None,
        local := Some(Protect(host, Master(random))))
  }

  function VerifyRecovery(db: Database, passphrase: string): Result<Key, VaultError> {
    if db.recovery.None? then Err(NoRecovery) else UnwrapRecovery(db.recovery.value, passphrase)
  }

  function Adopted(db: Database, host: nat, passphrase: string): Result<(Database, Key), VaultError> {
    match VerifyRecovery(db, passphrase)
    case Err(e) => Err(e)
    case Ok(key) => Ok((db.(local := Some(Protect(host, key))), key))
  }

  /** The password a connection is offered: the user's own credential for the server, if it opens. */
  function Connect(db: Database, master: Option<Key>, user: int, server: int): Option<string> {
    if (user, server) !in db.credentials || user !in db.users || db.users[user].None? || master.None? then None
    else
      match OpenBlob(master.value, CredentialAad(db.users[user].value, server), db.credentials[(user, server)].secret)
      case None => None
      case Some(plain) => if plain.WordPlain? then Some(plain.word) else None
  }

  function DirectoryPassword(db: Database, master: Option<Key>): Option<string> {
    if db.directoryPassword.None? || master.None? then None
    else match OpenBlob(master.value, AAD_DIRECTORY, db.directoryPassword.value)
      case None => None
      case Some(plain) => if plain.WordPlain? then Some(plain.word) else None
  }

  /** Saving needs a recovery passphrase, an open vault and a user with a SID. */
  function CredentialSaved(db: Database, master: Option<Key>, user: int, server: int,
                           username: string, domain: Option<string>, password: string): Option<Database>
  {
    if db.recovery.None? || master.None? || user !in db.users || db.users[user].None? then None
    else
      var sealed := Sealed(master.value, CredentialAad(db.users[user].value, server), WordPlain(password));
      Some(db.(credentials := db.credentials[(user, server) := Saved(username, domain, sealed)]))
  }

  function DirectorySaved(db: Database, master: Option<Key>, password: string): Option<Database> {
    if master.None? then None
    else Some(db.(directoryPassword := Some(Sealed(master.value, AAD_DIRECTORY, WordPlain(password)))))
  }

  // ---- the code -----------------------------------------------------------------------------------

  class Store {
    var db: Database

    constructor (db: Database)
      ensures this.db == db
    {
      this.db := db;
    }

    /** One transaction: the saved credentials and the two named values go, the wrap is written. */
    method ReplaceSecrets(wrapped: Blob) returns (removed: nat)
      modifies this
      ensures db == old(db).(credentials := map[], directoryPassword := None, recovery := None, local := Some(wrapped))
      ensures removed == |old(db).credentials|
    {
      removed := |db.credentials|;
      db := db.(credentials := map[]);
      db := db.(recovery := None);
      db := db.(directoryPassword := None);
      db := db.(local := Some(wrapped));
    }
  }

  class Vault {
    const host: nat
    var master: Option<Key>

    constructor Load(store: Store, host: nat, random: nat)
      modifies store
      ensures this.host == host && (store.db, master) == Loaded(old(store.db), host, random)
    {
      this.host := host;
      master := None;
      new;
      if store.db.local.Some? {
        var key := Unprotect(host, store.db.local.value);
        if key.Some? { Install(key.value); }
      } else if store.db.recovery.None? {
        store.db := store.db.(local := Some(Protect(host, Master(random))));
        Install(Master(random));
      }
    }

    method Install(key: Key)
      modifies this
      ensures master == Some(key)
    {
      master := Some(key);
    }

    /** Changing the passphrase needs the current one; nothing else in the database changes. */
    method SetRecovery(store: Store, current: Option<string>, next: string, salt: nat) returns (e: Option<VaultError>)
      modifies store
      ensures match RecoverySet(old(store.db), master, current, next, salt)
              case Err(why) => e == Some(why) && store.db == old(store.db)
              case Ok(db) => e == None && store.db == db
    {
      if master.None? { return Some(Locked); }
      if |next| < MIN_PASSPHRASE { return Some(Weak); }
      if store.db.recovery.Some? {
        if current.None? { return Some(WrongPassphrase); }
        var key := UnwrapRecovery(store.db.recovery.value, current.value);
        if key.Err? { return Some(key.error); }
        if key.value != master.value { return Some(WrongPassphrase); }
      }
      store.db := store.db.(recovery := Some(WrapRecovery(master.value, next, salt)));
      return None;
    }

    method ReplaceRecovery(store: Store, next: string, salt: nat) returns (e: Option<VaultError>)
      modifies store
      ensures match RecoveryReplaced(old(store.db), master, next, salt)
              case Err(why) => e == Some(why) && store.db == old(store.db)
              case Ok(db) => e == None && store.db == db
    {
      if master.None? { return Some(Locked); }
      if |next| < MIN_PASSPHRASE { return Some(Weak); }
      store.db := store.db.(recovery := Some(WrapRecovery(master.value, next, salt)));
      return None;
    }

    method Reset(store: Store, random: nat) returns (removed: nat)
      modifies this, store
      ensures store.db == Restarted(old(store.db), host, random) && master == Some(Master(random))
      ensures removed == |old(store.db).credentials|
    {
      removed := store.ReplaceSecrets(Protect(host, Master(random)));
      Install(Master(random));
    }

    method Adopt(store: Store, passphrase: string) returns (key: Result<Key, VaultError>)
      modifies store
      ensures match Adopted(old(store.db), host, passphrase)
              case Err(why) => key == Err(why) && store.db == old(store.db)
              case Ok(taken) => key == Ok(taken.1) && store.db == taken.0
    {
      key := VerifyRecovery(store.db, passphrase);
      if key.Ok? { store.db := store.db.(local := Some(Protect(host, key.value))); }
    }
  }
}
