/** Sealed blobs under ideal encryption and an ideal passphrase key: a blob opens only under the key and the
    associated data it was sealed with (`vault.rs`). Also the tables of the database that encryption touches. */
module Crypto {
  import opened Common
  import opened Text

  datatype Key = Master(n: nat) | Host(n: nat) | Derived(passphrase: string, salt: nat)

  /** What is sealed: a key, a password, or a whole database. */
  datatype Plain = KeyPlain(key: Key) | WordPlain(word: string) | DatabasePlain(db: Database)

  /** Nonce and ciphertext; `Noise` is bytes nobody sealed. */
  datatype Blob = Sealed(key: Key, aad: string, plain: Plain) | Noise

  /** Format byte, salt and blob. */
  datatype PassBlob = PassBlob(format: nat, salt: nat, sealed: Blob) | TooShort

  datatype Saved = Saved(username: string, domain: Option<string>, secret: Blob)

  /** `users` gives each user's SID, once bound. */
  datatype Database = Database(
    users: map<int, Option<string>>,
    servers: set<int>,
    credentials: map<(int, int), Saved>,
    directoryPassword: Option<Blob>,
    local: Option<Blob>,
    recovery: Option<PassBlob>)

  datatype VaultError = Locked | WrongPassphrase | NoRecovery | Weak | Damaged

  const FORMAT: nat := 1
  const MIN_PASSPHRASE: nat := 12
  const AAD_LOCAL := "web-access local wrap v1"
  const AAD_RECOVERY := "web-access recovery wrap v1"
  const AAD_EXPORT := "web-access export v1"
  const AAD_DIRECTORY := "directory service password"

  function OpenBlob(key: Key, aad: string, blob: Blob): Option<Plain> {
    if blob.Sealed? && blob.key == key && blob.aad == aad then Some(blob.plain) else None
  }

  function EncryptWithPassphrase(passphrase: string, salt: nat, aad: string, plain: Plain): PassBlob {
    PassBlob(FORMAT, salt, Sealed(Derived(passphrase, salt), aad, plain))
  }

  /** A wrong passphrase and a tampered blob look alike. */
  function DecryptWithPassphrase(passphrase: string, aad: string, blob: PassBlob): Result<Plain, VaultError> {
    if blob.TooShort? || blob.format != FORMAT then Err(Damaged)
    else match OpenBlob(Derived(passphrase, blob.salt), aad, blob.sealed)
      case None => Err(WrongPassphrase)
      case Some(plain) => Ok(plain)
  }

  function WrapRecovery(key: Key, passphrase: string, salt: nat): PassBlob {
    EncryptWithPassphrase(passphrase, salt, AAD_RECOVERY, KeyPlain(key))
  }

  function UnwrapRecovery(blob: PassBlob, passphrase: string): Result<Key, VaultError> {
    match DecryptWithPassphrase(passphrase, AAD_RECOVERY, blob)
    case Err(e) => Err(e)
    case Ok(plain) => if plain.KeyPlain? then Ok(plain.key) else Err(Damaged)
  }

  // ---- associated data ----------------------------------------------------------------------------

  /** `{}` of a signed number. */
  function Signed(n: int): string { if n < 0 then "-" + Decimal(-n) else Decimal(n) }

  function CredentialAad(sid: string, server: int): string { "credential\0" + sid + "\0" + Signed(server) }

  lemma SignedIsInjective(a: int, b: int)
    ensures '\0' !in Signed(a)
    ensures Signed(a) == Signed(b) ==> a == b
  {
    var m, n := if a < 0 then -a else a, if b < 0 then -b else b;
    NumOfDecimal(m);
    NumOfDecimal(n);
    if Signed(a) == Signed(b) {
      assert IsDigit(Decimal(m)[0]) && IsDigit(Decimal(n)[0]);
      assert a < 0 <==> Signed(a)[0] == '-';
      assert b < 0 <==> Signed(b)[0] == '-';
      if a < 0 { assert Signed(a)[1..] == Decimal(m) && Signed(b)[1..] == Decimal(n); }
    }
  }

  lemma ShorterDiffers(a: string, b: string, c: string, d: string, sep: char)
    requires sep !in b && |a| < |c|
    ensures a + [sep] + b != c + [sep] + d
  {
    var s, t := a + [sep] + b, c + [sep] + d;
    if |s| == |t| {
      assert t[|c|] == sep;
      assert s[|c|] == b[|c| - |a| - 1];
    }
  }

  /** The last separator tells the two parts apart, whatever the first holds. */
  lemma LastSeparator(a: string, b: string, c: string, d: string, sep: char)
    requires sep !in b && sep !in d && a + [sep] + b == c + [sep] + d
    ensures a == c && b == d
  {
    if |a| < |c| {
      ShorterDiffers(a, b, c, d, sep);
    } else if |c| < |a| {
      ShorterDiffers(c, d, a, b, sep);
    } else {
      var s, t := a + [sep] + b, c + [sep] + d;
      assert s[..|a|] == a && t[..|a|] == c;
      assert s[|a| + 1..] == b && t[|a| + 1..] == d;
    }
  }

  /** No two of a user's SID and a server share associated data. */
  lemma AadIsInjective(sid: string, server: int, sid': string, server': int)
    requires CredentialAad(sid, server) == CredentialAad(sid', server')
    ensures sid == sid' && server == server'
  {
    SignedIsInjective(server, server');
    SignedIsInjective(server', server);
    var p := "credential\0";
    var s, t := CredentialAad(sid, server), CredentialAad(sid', server');
    assert s[|p|..] == sid + ['\0'] + Signed(server);
    assert t[|p|..] == sid' + ['\0'] + Signed(server');
    LastSeparator(sid, Signed(server), sid', Signed(server'), '\0');
  }

  // ---- one master key -----------------------------------------------------------------------------

  /** Both wraps hold `key` and every secret is sealed under it. */
  ghost predicate Wrapped(db: Database, key: Key) {
    && key.Master?
    && db.local.Some? && (exists host :: db.local == Some(Sealed(Host(host), AAD_LOCAL, KeyPlain(key))))
    && (db.recovery.Some? ==> exists p, salt :: db.recovery == Some(WrapRecovery(key, p, salt)))
    && (forall c | c in db.credentials :: db.credentials[c].secret.Sealed? && db.credentials[c].secret.key == key)
    && (db.directoryPassword.Some? ==> db.directoryPassword.value.Sealed? && db.directoryPassword.value.key == key)
  }

  /** A database no vault was ever loaded on. */
  predicate Pristine(db: Database) {
    db.local.None? && db.recovery.None? && db.credentials == map[] && db.directoryPassword.None?
  }

  ghost predicate Coherent(db: Database) { Pristine(db) || exists key :: Wrapped(db, key) }

  /** The recovery wrap gives the one key to the one passphrase it was made with. */
  lemma RecoveryOpens(db: Database, key: Key, passphrase: string)
    requires Wrapped(db, key) && db.recovery.Some?
    ensures var key' := UnwrapRecovery(db.recovery.value, passphrase); key'.Ok? ==> key' == Ok(key)
  {
  }
}
