/** Hosts, their databases and the archives between them, over whole runs: one master key for the key in
    memory, both wraps and every sealed secret, and saved credentials that move between hosts. */
module VaultTheorems {
  import opened Common
  import opened Crypto
  import opened Vault

  datatype Machine = Machine(id: nat, running: bool, db: Database, master: Option<Key>)

  /** `archives` are the exports made so far, wherever they are kept. */
  datatype World = World(hosts: seq<Machine>, archives: seq<PassBlob>)

  datatype Label =
    | Boot(i: nat, random: nat)
    | Stop(i: nat)
    | CopyFile(i: nat, j: nat)
    | SetPassphrase(i: nat, current: Option<string>, next: string, salt: nat)
    | ReplacePassphrase(i: nat, next: string, salt: nat)
    | Unlock(i: nat, passphrase: string)
    | Reset(i: nat, random: nat)
    | Save(i: nat, user: int, server: int, username: string, domain: Option<string>, password: string)
    | SaveDirectory(i: nat, password: string)
    /** Any change of users and servers, with whatever saved credentials go with it. */
    | Edit(i: nat, users: map<int, Option<string>>, servers: set<int>, gone: set<(int, int)>)
    | Export(i: nat, passphrase: string, salt: nat)
    | Import(i: nat, k: nat, passphrase: string)

  // ---- migration ----------------------------------------------------------------------------------

  /** An export is refused unless its passphrase opens the recovery wrap of the database it takes. */
  function Exported(db: Database, passphrase: string, salt: nat): Result<PassBlob, VaultError> {
    match VerifyRecovery(db, passphrase)
    case Err(e) => Err(e)
    case Ok(_) => Ok(EncryptWithPassphrase(passphrase, salt, AAD_EXPORT, DatabasePlain(db)))
  }

  /** The imported database, its key wrapped for this host. */
  function Imported(host: nat, archive: PassBlob, passphrase: string): Result<(Database, Key), VaultError> {
    match DecryptWithPassphrase(passphrase, AAD_EXPORT, archive)
    case Err(e) => Err(e)
    case Ok(plain) => if plain.DatabasePlain? then Adopted(plain.db, host, passphrase) else Err(Damaged)
  }

  // ---- steps --------------------------------------------------------------------------------------

  predicate Enabled(w: World, l: Label) {
    && l.i < |w.hosts|
    && match l
       case Boot(i, _) => !w.hosts[i].running
       case CopyFile(i, j) => j < |w.hosts| && !w.hosts[j].running
       case Import(i, k, _) => w.hosts[i].running && k < |w.archives|
       case _ => w.hosts[l.i].running
  }

  function Taken(m: Machine, r: Result<(Database, Key), VaultError>): Machine {
    match r
    case Err(_) => m
    case Ok(t) => m.(db := t.0, master := Some(t.1))
  }

  function Written(m: Machine, db: Option<Database>): Machine {
    match db
    case None => m
    case Some(db) => m.(db := db)
  }

  function Rewrapped(m: Machine, db: Result<Database, VaultError>): Machine {
    match db
    case Err(_) => m
    case Ok(db) => m.(db := db)
  }

  /** What a step on one host makes of it. */
  function MachineStep(w: World, l: Label): Machine
    requires Enabled(w, l) && !l.CopyFile?
  {
    var m := w.hosts[l.i];
    match l
    case Boot(_, random) =>
      var (db, master) := Loaded(m.db, m.id, random); m.(running := true, db := db, master := master)
    case Stop(_) => m.(running := false, master := None)
    case SetPassphrase(_, current, next, salt) => Rewrapped(m, RecoverySet(m.db, m.master, current, next, salt))
    case ReplacePassphrase(_, next, salt) => Rewrapped(m, RecoveryReplaced(m.db, m.master, next, salt))
    case Unlock(_, passphrase) => Taken(m, Adopted(m.db, m.id, passphrase))
    case Reset(_, random) => m.(db := Restarted(m.db, m.id, random), master := Some(Master(random)))
    case Save(_, user, server, username, domain, password) =>
      Written(m, CredentialSaved(m.db, m.master, user, server, username, domain, password))
    case SaveDirectory(_, password) => Written(m, DirectorySaved(m.db, m.master, password))
    case Edit(_, users, servers, gone) =>
      m.(db := m.db.(users := users, servers := servers, credentials := m.db.credentials - gone))
    case Export(_, _, _) => m
    case Import(_, k, passphrase) => Taken(m, Imported(m.id, w.archives[k], passphrase))
  }

  function Apply(w: World, l: Label): World
    requires Enabled(w, l)
  {
    match l
    case CopyFile(i, j) => w.(hosts := w.hosts[j := w.hosts[j].(db := w.hosts[i].db, master := None)])
    case Export(i, passphrase, salt) =>
      (match Exported(w.hosts[i].db, passphrase, salt)
       case Err(_) => w
       case Ok(archive) => w.(archives := w.archives + [archive]))
    case _ => w.(hosts := w.hosts[l.i := MachineStep(w, l)])
  }

  ghost predicate ValidRun(w: World, ls: seq<Label>)
    decreases |ls|
  {
    ls != [] ==> Enabled(w, ls[0]) && ValidRun(Apply(w, ls[0]), ls[1..])
  }

  ghost function After(w: World, ls: seq<Label>): World
    requires ValidRun(w, ls)
    decreases |ls|
  {
    if ls == [] then w else After(Apply(w, ls[0]), ls[1..])
  }

  /** Stopped hosts with databases no vault was loaded on. */
  predicate Start(w: World) {
    w.archives == [] && forall i | 0 <= i < |w.hosts| ::
      !w.hosts[i].running && w.hosts[i].master.None? && Pristine(w.hosts[i].db)
  }

  // ---- one master key -----------------------------------------------------------------------------

  ghost predicate MachineOk(m: Machine) {
    Coherent(m.db) && (m.master.Some? ==> Wrapped(m.db, m.master.value))
  }

  /** An export of a coherent database that its own passphrase unlocks. */
  ghost predicate ArchiveOk(a: PassBlob) {
    exists p, salt, db ::
      && a == EncryptWithPassphrase(p, salt, AAD_EXPORT, DatabasePlain(db))
      && Coherent(db) && VerifyRecovery(db, p).Ok?
  }

  ghost predicate Inv(w: World) {
    && (forall i | 0 <= i < |w.hosts| :: MachineOk(w.hosts[i]))
    && (forall k | 0 <= k < |w.archives| :: ArchiveOk(w.archives[k]))
  }

  lemma AdoptedOk(db: Database, host: nat, passphrase: string)
    requires Coherent(db) && Adopted(db, host, passphrase).Ok?
    ensures var t := Adopted(db, host, passphrase).value; Wrapped(t.0, t.1) && Wrapped(db, t.1)
  {
    var key :| Wrapped(db, key);
    RecoveryOpens(db, key, passphrase);
    var t := Adopted(db, host, passphrase).value;
    assert t.0.local == Some(Sealed(Host(host), AAD_LOCAL, KeyPlain(key)));
  }

  lemma LoadedOk(db: Database, host: nat, random: nat)
    requires Coherent(db)
    ensures var (db', master) := Loaded(db, host, random);
            Coherent(db') && (master.Some? ==> Wrapped(db', master.value))
  {
    if Pristine(db) {
      var (db', _) := Loaded(db, host, random);
      assert db'.local == Some(Sealed(Host(host), AAD_LOCAL, KeyPlain(Master(random))));
      assert Wrapped(db', Master(random));
    } else {
      var key :| Wrapped(db, key);
    }
  }

  lemma RewrappedOk(db: Database, key: Key, next: string, salt: nat)
    requires Wrapped(db, key)
    ensures Wrapped(db.(recovery := Some(WrapRecovery(key, next, salt))), key)
  {
    assert WrapRecovery(key, next, salt) == WrapRecovery(key, next, salt);
  }

  lemma RestartedOk(db: Database, host: nat, random: nat)
    ensures Wrapped(Restarted(db, host, random), Master(random))
  {
    assert Restarted(db, host, random).local == Some(Sealed(Host(host), AAD_LOCAL, KeyPlain(Master(random))));
  }

  lemma EditedOk(db: Database, users: map<int, Option<string>>, servers: set<int>, gone: set<(int, int)>)
    requires Coherent(db)
    ensures var db' := db.(users := users, servers := servers, credentials := db.credentials - gone);
            Coherent(db') && forall key | Wrapped(db, key) :: Wrapped(db', key)
  {
    var db' := db.(users := users, servers := servers, credentials := db.credentials - gone);
    forall key | Wrapped(db, key) ensures Wrapped(db', key) {
    }
    if Pristine(db) { assert db.credentials - gone == map[]; }
  }

  lemma ImportedOk(host: nat, a: PassBlob, passphrase: string)
    requires ArchiveOk(a) && Imported(host, a, passphrase).Ok?
    ensures var t := Imported(host, a, passphrase).value; Wrapped(t.0, t.1)
  {
    var p, salt, db :| a == EncryptWithPassphrase(p, salt, AAD_EXPORT, DatabasePlain(db)) && Coherent(db);
    AdoptedOk(db, host, passphrase);
  }

  lemma MachineStepOk(w: World, l: Label)
    requires Inv(w) && Enabled(w, l) && !l.CopyFile?
    ensures MachineOk(MachineStep(w, l))
  {
    var m := w.hosts[l.i];
    match l
    case Boot(_, random) => LoadedOk(m.db, m.id, random);
    case Stop(_) =>
    case SetPassphrase(_, _, next, salt) => if m.master.Some? { RewrappedOk(m.db, m.master.value, next, salt); }
    case ReplacePassphrase(_, next, salt) => if m.master.Some? { RewrappedOk(m.db, m.master.value, next, salt); }
    case Unlock(_, passphrase) => if Adopted(m.db, m.id, passphrase).Ok? { AdoptedOk(m.db, m.id, passphrase); }
    case Reset(_, random) => RestartedOk(m.db, m.id, random);
    case Save(_, _, _, _, _, _) => if m.master.Some? { SavedOk(m, l); }
    case SaveDirectory(_, password) => if m.master.Some? { SavedOk(m, l); }
    case Edit(_, users, servers, gone) => EditedOk(m.db, users, servers, gone);
    case Export(_, _, _) =>
    case Import(_, k, passphrase) =>
      if Imported(m.id, w.archives[k], passphrase).Ok? { ImportedOk(m.id, w.archives[k], passphrase); }
  }

  lemma SavedOk(m: Machine, l: Label)
    requires MachineOk(m) && m.master.Some? && (l.Save? || l.SaveDirectory?)
    ensures var db := if l.Save?
                      then CredentialSaved(m.db, m.master, l.user, l.server, l.username, l.domain, l.password)
                      else DirectorySaved(m.db, m.master, l.password);
            db.Some? ==> Wrapped(db.value, m.master.value)
  {
  }

  lemma StepKeeps(w: World, l: Label)
    requires Inv(w) && Enabled(w, l)
    ensures Inv(Apply(w, l))
  {
    match l
    case CopyFile(i, j) => assert MachineOk(w.hosts[i]);
    case Export(i, passphrase, salt) =>
      if Exported(w.hosts[i].db, passphrase, salt).Ok? {
        assert MachineOk(w.hosts[i]);
        assert ArchiveOk(Exported(w.hosts[i].db, passphrase, salt).value);
      }
    case _ => MachineStepOk(w, l);
  }

  lemma {:induction false} RunKeeps(w: World, ls: seq<Label>)
    requires Inv(w) && ValidRun(w, ls)
    ensures Inv(After(w, ls))
    decreases |ls|
  {
    if ls != [] {
      StepKeeps(w, ls[0]);
      RunKeeps(Apply(w, ls[0]), ls[1..]);
    }
  }

  /** In every reachable state the key in memory is the one both wraps hold and every secret is sealed under. */
  lemma OneMasterKey(w: World, ls: seq<Label>, i: nat)
    requires Start(w) && ValidRun(w, ls) && i < |After(w, ls).hosts|
    ensures var m := After(w, ls).hosts[i];
            Coherent(m.db) && (m.master.Some? ==> Wrapped(m.db, m.master.value))
  {
    RunKeeps(w, ls);
    assert MachineOk(After(w, ls).hosts[i]);
  }

  // ---- moving -------------------------------------------------------------------------------------

  /** Under its key a database offers the same passwords wherever it is. */
  lemma SameKeySamePasswords(db: Database, host: nat, passphrase: string, key: Key, user: int, server: int)
    requires Wrapped(db, key) && VerifyRecovery(db, passphrase).Ok?
    ensures Adopted(db, host, passphrase).Ok?
    ensures var (db', key') := Adopted(db, host, passphrase).value;
            && key' == key
            && Connect(db', Some(key'), user, server) == Connect(db, Some(key), user, server)
            && DirectoryPassword(db', Some(key')) == DirectoryPassword(db, Some(key))
  {
    RecoveryOpens(db, key, passphrase);
  }

  /** An export the old host gives is one any host can import with the passphrase, whatever state it is in. */
  lemma ExportOpensAnywhere(m: Machine, passphrase: string, salt: nat, host: nat, user: int, server: int)
    requires MachineOk(m) && m.master.Some? && Exported(m.db, passphrase, salt).Ok?
    ensures var arrived := Imported(host, Exported(m.db, passphrase, salt).value, passphrase);
            && arrived.Ok?
            && arrived.value.1 == m.master.value
            && Connect(arrived.value.0, Some(arrived.value.1), user, server) == Connect(m.db, m.master, user, server)
            && DirectoryPassword(arrived.value.0, Some(arrived.value.1)) == DirectoryPassword(m.db, m.master)
  {
    SameKeySamePasswords(m.db, host, passphrase, m.master.value, user, server);
  }

  lemma {:induction false} ArchivesStay(w: World, ls: seq<Label>)
    requires ValidRun(w, ls)
    ensures w.archives <= After(w, ls).archives
    decreases |ls|
  {
    if ls != [] { ArchivesStay(Apply(w, ls[0]), ls[1..]); }
  }

  /** An archive made on an open host, kept through whatever else happens on any host, then imported on any host
      with its passphrase: there every saved credential and the directory password opens to what it did on the old
      host when the export was made. */
  lemma CredentialsMove(w: World, ls: seq<Label>, i: nat, passphrase: string, salt: nat, later: seq<Label>, j: nat,
                        user: int, server: int)
    requires Start(w) && ValidRun(w, ls) && Enabled(After(w, ls), Export(i, passphrase, salt))
    requires var m := After(w, ls).hosts[i]; m.master.Some? && Exported(m.db, passphrase, salt).Ok?
    requires var made := Apply(After(w, ls), Export(i, passphrase, salt));
             && ValidRun(made, later)
             && Enabled(After(made, later), Import(j, |After(w, ls).archives|, passphrase))
    ensures var before := After(w, ls);
            var end := After(Apply(before, Export(i, passphrase, salt)), later);
            var m, m' := before.hosts[i], Apply(end, Import(j, |before.archives|, passphrase)).hosts[j];
            && m'.master == m.master
            && Connect(m'.db, m'.master, user, server) == Connect(m.db, m.master, user, server)
            && DirectoryPassword(m'.db, m'.master) == DirectoryPassword(m.db, m.master)
  {
    var before := After(w, ls);
    var made := Apply(before, Export(i, passphrase, salt));
    var end := After(made, later);
    RunKeeps(w, ls);
    assert MachineOk(before.hosts[i]);
    ArchivesStay(made, later);
    assert end.archives[|before.archives|] == made.archives[|before.archives|];
    ExportOpensAnywhere(before.hosts[i], passphrase, salt, end.hosts[j].id, user, server);
  }

  // ---- copies -------------------------------------------------------------------------------------

  /** The local wrap of an open host is its own. */
  ghost predicate HomeWrapped(m: Machine) {
    m.master.Some? ==> m.db.local == Some(Protect(m.id, m.master.value))
  }

  ghost predicate AllHomeWrapped(w: World) { forall i | 0 <= i < |w.hosts| :: HomeWrapped(w.hosts[i]) }

  lemma HomeStep(w: World, l: Label)
    requires Inv(w) && AllHomeWrapped(w) && Enabled(w, l)
    ensures AllHomeWrapped(Apply(w, l))
  {
    if !l.CopyFile? {
      assert MachineOk(w.hosts[l.i]) && HomeWrapped(w.hosts[l.i]);
      HomeMachine(w, l);
    }
  }

  lemma HomeMachine(w: World, l: Label)
    requires Enabled(w, l) && !l.CopyFile? && MachineOk(w.hosts[l.i]) && HomeWrapped(w.hosts[l.i])
    ensures HomeWrapped(MachineStep(w, l))
  {
  }

  lemma {:induction false} HomeRun(w: World, ls: seq<Label>)
    requires Inv(w) && AllHomeWrapped(w) && ValidRun(w, ls)
    ensures AllHomeWrapped(After(w, ls))
    decreases |ls|
  {
    if ls != [] {
      HomeStep(w, ls[0]);
      StepKeeps(w, ls[0]);
      HomeRun(Apply(w, ls[0]), ls[1..]);
    }
  }

  /** The database of an open host, copied to another host and started there, is as it was and locked: it opens
      nothing, whatever the run before. At home it still loads its key. */
  lemma CopyStartsLocked(w: World, ls: seq<Label>, i: nat, j: nat, random: nat, user: int, server: int)
    requires Start(w) && ValidRun(w, ls)
    requires var before := After(w, ls);
             && Enabled(before, CopyFile(i, j))
             && before.hosts[i].master.Some? && before.hosts[i].id != before.hosts[j].id
    ensures var before := After(w, ls);
            var copied := Apply(before, CopyFile(i, j));
            && Enabled(copied, Boot(j, random))
            && var m := Apply(copied, Boot(j, random)).hosts[j];
               && m.db == before.hosts[i].db && m.master.None?
               && Connect(m.db, m.master, user, server).None? && DirectoryPassword(m.db, m.master).None?
    ensures var home := After(w, ls).hosts[i]; Loaded(home.db, home.id, random) == (home.db, home.master)
  {
    RunKeeps(w, ls);
    HomeRun(w, ls);
    assert HomeWrapped(After(w, ls).hosts[i]);
  }

  /** And it is unlocked by the recovery passphrase and nothing else, with every password as it was on the host it
      came from; from then on it opens by itself. */
  lemma UnlockedCopyOpens(w: World, ls: seq<Label>, i: nat, away: nat, passphrase: string, random: nat,
                          user: int, server: int)
    requires Start(w) && ValidRun(w, ls) && i < |After(w, ls).hosts| && After(w, ls).hosts[i].master.Some?
    ensures var m := After(w, ls).hosts[i];
            var unlocked := Adopted(m.db, away, passphrase);
            && (unlocked.Ok? <==> VerifyRecovery(m.db, passphrase) == Ok(m.master.value))
            && (unlocked.Ok? ==>
                  && Connect(unlocked.value.0, Some(unlocked.value.1), user, server)
                     == Connect(m.db, m.master, user, server)
                  && DirectoryPassword(unlocked.value.0, Some(unlocked.value.1)) == DirectoryPassword(m.db, m.master)
                  && Loaded(unlocked.value.0, away, random) == (unlocked.value.0, m.master))
  {
    RunKeeps(w, ls);
    var m := After(w, ls).hosts[i];
    assert MachineOk(m);
    if VerifyRecovery(m.db, passphrase).Ok? {
      SameKeySamePasswords(m.db, away, passphrase, m.master.value, user, server);
    }
  }

  // ---- the passphrase and the associated data -----------------------------------------------------

  /** Changing the passphrase: only the new one opens the wrap, and every password opens as before. */
  lemma PassphraseChanges(db: Database, key: Key, current: Option<string>, next: string, salt: nat, other: string,
                          user: int, server: int)
    requires Wrapped(db, key) && RecoverySet(db, Some(key), current, next, salt).Ok?
    ensures var db' := RecoverySet(db, Some(key), current, next, salt).value;
            && VerifyRecovery(db', other) == (if other == next then Ok(key) else Err(WrongPassphrase))
            && Connect(db', Some(key), user, server) == Connect(db, Some(key), user, server)
    ensures db.recovery.Some? ==> current.Some? && VerifyRecovery(db, current.value) == Ok(key)
  {
  }

  /** A password saved for a user and a server opens for that SID and that server and for no other. */
  lemma OpensOnlyAsSaved(key: Key, sid: string, server: int, sid': string, server': int, word: string)
    ensures OpenBlob(key, CredentialAad(sid', server'), Sealed(key, CredentialAad(sid, server), WordPlain(word)))
            == if sid' == sid && server' == server then Some(WordPlain(word)) else None
  {
    if CredentialAad(sid, server) == CredentialAad(sid', server') { AadIsInjective(sid, server, sid', server'); }
  }

  /** What is saved is what the next connection is offered, and nobody else's changes. */
  lemma SavedIsOffered(db: Database, key: Key, user: int, server: int, username: string, domain: Option<string>,
                       password: string, user': int, server': int)
    requires Wrapped(db, key) && CredentialSaved(db, Some(key), user, server, username, domain, password).Some?
    ensures var db' := CredentialSaved(db, Some(key), user, server, username, domain, password).value;
            && Connect(db', Some(key), user, server) == Some(password)
            && ((user', server') != (user, server) ==>
                  Connect(db', Some(key), user', server') == Connect(db, Some(key), user', server'))
  {
  }

  /** After a reset nothing sealed before is left, no passphrase opens it, and this host loads the new key. */
  lemma ResetForgets(db: Database, host: nat, random: nat, again: nat, passphrase: string, user: int, server: int)
    ensures var db' := Restarted(db, host, random);
            && Connect(db', Some(Master(random)), user, server).None?
            && DirectoryPassword(db', Some(Master(random))).None?
            && VerifyRecovery(db', passphrase) == Err(NoRecovery)
            && Loaded(db', host, again) == (db', Some(Master(random)))
  {
  }

  // ---- what lasts on one host ---------------------------------------------------------------------

  /** A step that puts another vault in the place of host `i`'s. */
  predicate Replaces(l: Label, i: nat) {
    (l.i == i && (l.Reset? || l.Import?)) || (l.CopyFile? && l.j == i)
  }

  /** The host opens its own database with this key whenever it runs. */
  ghost predicate AtHome(m: Machine, key: Key) {
    Wrapped(m.db, key) && m.db.local == Some(Protect(m.id, key)) && m.master == if m.running then Some(key) else None
  }

  ghost predicate HostAtHome(w: World, i: nat, key: Key) { i < |w.hosts| && AtHome(w.hosts[i], key) }

  lemma AtHomeStep(w: World, l: Label, i: nat, key: Key)
    requires Enabled(w, l) && !Replaces(l, i) && HostAtHome(w, i, key)
    ensures HostAtHome(Apply(w, l), i, key)
  {
    if l.Unlock? && l.i == i && w.hosts[i].db.recovery.Some? { RecoveryOpens(w.hosts[i].db, key, l.passphrase); }
  }

  /** A stopped host holds no key. */
  ghost predicate StoppedIsLocked(w: World) {
    forall i | 0 <= i < |w.hosts| :: w.hosts[i].master.Some? ==> w.hosts[i].running
  }

  lemma {:induction false} StoppedRun(w: World, ls: seq<Label>)
    requires StoppedIsLocked(w) && ValidRun(w, ls)
    ensures StoppedIsLocked(After(w, ls))
    decreases |ls|
  {
    if ls != [] {
      assert StoppedIsLocked(Apply(w, ls[0]));
      StoppedRun(Apply(w, ls[0]), ls[1..]);
    }
  }

  lemma OpenIsAtHome(w: World, ls: seq<Label>, i: nat)
    requires Start(w) && ValidRun(w, ls) && i < |After(w, ls).hosts| && After(w, ls).hosts[i].master.Some?
    ensures HostAtHome(After(w, ls), i, After(w, ls).hosts[i].master.value)
  {
    RunKeeps(w, ls);
    HomeRun(w, ls);
    StoppedRun(w, ls);
    assert MachineOk(After(w, ls).hosts[i]) && HomeWrapped(After(w, ls).hosts[i]);
  }

  /** A step that leaves alone what host `i` has of a user and a server in `db`. */
  predicate Spares(l: Label, i: nat, db: Database, user: int, server: int) {
    !Replaces(l, i) && (l.i == i ==>
      match l
      case Save(_, u, x, _, _, _) => (u, x) != (user, server)
      case Edit(_, users, _, gone) =>
        (user, server) !in gone && (user in users <==> user in db.users)
        && (user in users ==> users[user] == db.users[user])
      case _ => true)
  }

  /** Two databases have the same of a user and a server. */
  predicate SamePair(db: Database, db': Database, user: int, server: int) {
    && (user in db'.users <==> user in db.users) && (user in db.users ==> db'.users[user] == db.users[user])
    && ((user, server) in db'.credentials <==> (user, server) in db.credentials)
    && ((user, server) in db.credentials ==> db'.credentials[(user, server)] == db.credentials[(user, server)])
  }

  lemma PairStep(w: World, l: Label, i: nat, db: Database, user: int, server: int)
    requires Enabled(w, l) && Spares(l, i, db, user, server)
    requires i < |w.hosts| && SamePair(db, w.hosts[i].db, user, server)
    ensures i < |Apply(w, l).hosts| && SamePair(db, Apply(w, l).hosts[i].db, user, server)
  {
  }

  lemma {:induction false} PairRun(w: World, ls: seq<Label>, i: nat, key: Key, db: Database, user: int, server: int)
    requires ValidRun(w, ls) && (forall k | 0 <= k < |ls| :: Spares(ls[k], i, db, user, server))
    requires HostAtHome(w, i, key) && SamePair(db, w.hosts[i].db, user, server)
    ensures HostAtHome(After(w, ls), i, key) && SamePair(db, After(w, ls).hosts[i].db, user, server)
    decreases |ls|
  {
    if ls != [] {
      AtHomeStep(w, ls[0], i, key);
      PairStep(w, ls[0], i, db, user, server);
      PairRun(Apply(w, ls[0]), ls[1..], i, key, db, user, server);
    }
  }

  /** A saved password is offered for as long as the host runs, through stops, starts, unlocking, exports and changes
      of the passphrase, until that user's row or that credential changes or another vault takes the host. */
  lemma SavedLasts(w: World, ls: seq<Label>, l: Label, rest: seq<Label>)
    requires Start(w) && ValidRun(w, ls) && l.Save? && Enabled(After(w, ls), l)
    requires var m := After(w, ls).hosts[l.i];
             CredentialSaved(m.db, m.master, l.user, l.server, l.username, l.domain, l.password).Some?
    requires var saved := Apply(After(w, ls), l);
             && ValidRun(saved, rest)
             && forall k | 0 <= k < |rest| :: Spares(rest[k], l.i, saved.hosts[l.i].db, l.user, l.server)
    ensures var end := After(Apply(After(w, ls), l), rest);
            && l.i < |end.hosts|
            && var m := end.hosts[l.i];
               m.running ==> Connect(m.db, m.master, l.user, l.server) == Some(l.password)
  {
    var m, saved := After(w, ls).hosts[l.i], Apply(After(w, ls), l);
    OpenIsAtHome(w, ls, l.i);
    var key := m.master.value;
    AtHomeStep(After(w, ls), l, l.i, key);
    SavedIsOffered(m.db, key, l.user, l.server, l.username, l.domain, l.password, l.user, l.server);
    PairRun(saved, rest, l.i, key, saved.hosts[l.i].db, l.user, l.server);
  }

  /** A step that leaves host `i`'s recovery wrap alone. */
  predicate KeepsWrap(l: Label, i: nat) {
    !Replaces(l, i) && (l.i == i ==> !l.SetPassphrase? && !l.ReplacePassphrase?)
  }

  lemma {:induction false} WrapRun(w: World, ls: seq<Label>, i: nat, key: Key)
    requires ValidRun(w, ls) && HostAtHome(w, i, key) && (forall k | 0 <= k < |ls| :: KeepsWrap(ls[k], i))
    ensures HostAtHome(After(w, ls), i, key) && After(w, ls).hosts[i].db.recovery == w.hosts[i].db.recovery
    decreases |ls|
  {
    if ls != [] {
      AtHomeStep(w, ls[0], i, key);
      WrapStep(w, ls[0], i);
      WrapRun(Apply(w, ls[0]), ls[1..], i, key);
    }
  }

  lemma WrapStep(w: World, l: Label, i: nat)
    requires Enabled(w, l) && KeepsWrap(l, i) && i < |w.hosts|
    ensures i < |Apply(w, l).hosts| && Apply(w, l).hosts[i].db.recovery == w.hosts[i].db.recovery
  {
  }

  /** The passphrase a step sets on its host, if it does. */
  function Sets(m: Machine, l: Label): Option<string> {
    match l
    case SetPassphrase(_, current, next, salt) =>
      if RecoverySet(m.db, m.master, current, next, salt).Ok? then Some(next) else None
    case ReplacePassphrase(_, next, salt) =>
      if RecoveryReplaced(m.db, m.master, next, salt).Ok? then Some(next) else None
    case _ => None
  }

  /** Setting a passphrase needs an open vault and a long enough one, and, unless it replaces one outright, the
      current one where one is set; nothing else. */
  lemma PassphraseIsSetExactlyIf(db: Database, key: Key, current: Option<string>, next: string, salt: nat)
    requires Wrapped(db, key)
    ensures RecoverySet(db, None, current, next, salt).Err? && RecoveryReplaced(db, None, next, salt).Err?
    ensures RecoveryReplaced(db, Some(key), next, salt).Ok? <==> |next| >= MIN_PASSPHRASE
    ensures RecoverySet(db, Some(key), current, next, salt).Ok? <==>
              && |next| >= MIN_PASSPHRASE
              && (db.recovery.Some? ==> current.Some? && VerifyRecovery(db, current.value).Ok?)
  {
  }

  lemma SetOpens(m: Machine, l: Label, key: Key, other: string)
    requires m.master == Some(key) && Sets(m, l).Some? && (l.SetPassphrase? || l.ReplacePassphrase?)
    ensures var db := if l.SetPassphrase? then RecoverySet(m.db, m.master, l.current, l.next, l.salt).value
                      else RecoveryReplaced(m.db, m.master, l.next, l.salt).value;
            VerifyRecovery(db, other) == if other == l.next then Ok(key) else Err(WrongPassphrase)
  {
  }

  /** Until the passphrase is changed again or another vault takes the host, the passphrase last set, by a change or
      outright, recovers the key the host had then and exports from it, and no other passphrase does either. */
  lemma PassphraseLasts(w: World, ls: seq<Label>, l: Label, rest: seq<Label>, other: string, salt: nat)
    requires Start(w) && ValidRun(w, ls) && Enabled(After(w, ls), l) && Sets(After(w, ls).hosts[l.i], l).Some?
    requires ValidRun(Apply(After(w, ls), l), rest) && forall k | 0 <= k < |rest| :: KeepsWrap(rest[k], l.i)
    ensures var m, end := After(w, ls).hosts[l.i], After(Apply(After(w, ls), l), rest);
            && l.i < |end.hosts| && m.master.Some?
            && VerifyRecovery(end.hosts[l.i].db, other)
               == (if other == l.next then Ok(m.master.value) else Err(WrongPassphrase))
            && (Exported(end.hosts[l.i].db, other, salt).Ok? <==> other == l.next)
  {
    var m := After(w, ls).hosts[l.i];
    OpenIsAtHome(w, ls, l.i);
    AtHomeStep(After(w, ls), l, l.i, m.master.value);
    SetOpens(m, l, m.master.value, other);
    WrapRun(Apply(After(w, ls), l), rest, l.i, m.master.value);
  }

  /** A step that brings host `i` no credential for a user and a server. */
  predicate BringsNone(l: Label, i: nat, user: int, server: int) {
    && !(l.CopyFile? && l.j == i)
    && (l.i == i ==> !l.Import? && (l.Save? ==> (l.user, l.server) != (user, server)))
  }

  lemma NoneStep(w: World, l: Label, i: nat, user: int, server: int)
    requires Enabled(w, l) && BringsNone(l, i, user, server)
    requires i < |w.hosts| && (user, server) !in w.hosts[i].db.credentials
    ensures i < |Apply(w, l).hosts| && (user, server) !in Apply(w, l).hosts[i].db.credentials
  {
  }

  lemma {:induction false} NoneRun(w: World, ls: seq<Label>, i: nat, user: int, server: int)
    requires ValidRun(w, ls) && (forall k | 0 <= k < |ls| :: BringsNone(ls[k], i, user, server))
    requires i < |w.hosts| && (user, server) !in w.hosts[i].db.credentials
    ensures i < |After(w, ls).hosts| && (user, server) !in After(w, ls).hosts[i].db.credentials
    decreases |ls|
  {
    if ls != [] {
      NoneStep(w, ls[0], i, user, server);
      NoneRun(Apply(w, ls[0]), ls[1..], i, user, server);
    }
  }

  /** After a reset no password saved before is offered again, whatever key the host comes to hold, until one is saved
      anew, an archive is imported or a file copied in. */
  lemma ResetLasts(w: World, i: nat, random: nat, rest: seq<Label>, user: int, server: int, key: Option<Key>)
    requires Enabled(w, Reset(i, random)) && ValidRun(Apply(w, Reset(i, random)), rest)
    requires forall k | 0 <= k < |rest| :: BringsNone(rest[k], i, user, server)
    ensures var end := After(Apply(w, Reset(i, random)), rest);
            i < |end.hosts| && Connect(end.hosts[i].db, key, user, server).None?
  {
    NoneRun(Apply(w, Reset(i, random)), rest, i, user, server);
  }

  // ---- vaults that open ---------------------------------------------------------------------------

  lemma {:induction false} AtHomeRun(w: World, ls: seq<Label>, i: nat, key: Key)
    requires ValidRun(w, ls) && HostAtHome(w, i, key) && (forall k | 0 <= k < |ls| :: !Replaces(ls[k], i))
    ensures HostAtHome(After(w, ls), i, key)
    decreases |ls|
  {
    if ls != [] {
      AtHomeStep(w, ls[0], i, key);
      AtHomeRun(Apply(w, ls[0]), ls[1..], i, key);
    }
  }

  /** A new database starts with a new key, and a reset one with another; from then on the host holds that key
      whenever it runs, whatever else happens, until another vault takes the host. */
  lemma NewVaultOpens(w: World, l: Label, rest: seq<Label>)
    requires Enabled(w, l) && (l.Reset? || (l.Boot? && Pristine(w.hosts[l.i].db)))
    requires ValidRun(Apply(w, l), rest) && forall k | 0 <= k < |rest| :: !Replaces(rest[k], l.i)
    ensures var end := After(Apply(w, l), rest);
            && l.i < |end.hosts|
            && end.hosts[l.i].master == if end.hosts[l.i].running then Some(Master(l.random)) else None
  {
    NewIsAtHome(w, l);
    AtHomeRun(Apply(w, l), rest, l.i, Master(l.random));
  }

  lemma NewIsAtHome(w: World, l: Label)
    requires Enabled(w, l) && (l.Reset? || (l.Boot? && Pristine(w.hosts[l.i].db)))
    ensures HostAtHome(Apply(w, l), l.i, Master(l.random))
  {
    var m := Apply(w, l).hosts[l.i];
    assert m.db.local == Some(Sealed(Host(m.id), AAD_LOCAL, KeyPlain(Master(l.random))));
  }

  /** On an open host a credential is saved exactly for a user with a SID once a recovery passphrase is set. */
  lemma SavesExactlyIf(db: Database, key: Key, user: int, server: int, username: string, domain: Option<string>,
                       password: string)
    ensures CredentialSaved(db, None, user, server, username, domain, password).None?
    ensures CredentialSaved(db, Some(key), user, server, username, domain, password).Some? <==>
              db.recovery.Some? && user in db.users && db.users[user].Some?
    ensures var saved := CredentialSaved(db, Some(key), user, server, username, domain, password);
            saved.Some? ==>
              && (user, server) in saved.value.credentials
              && saved.value.credentials[(user, server)].username == username
              && saved.value.credentials[(user, server)].domain == domain
              && saved.value == db.(credentials := saved.value.credentials)
              && (forall c | c != (user, server) ::
                    && (c in saved.value.credentials <==> c in db.credentials)
                    && (c in db.credentials ==> saved.value.credentials[c] == db.credentials[c]))
  {
  }

  /** A step that leaves host `i`'s directory password alone. */
  predicate KeepsDirectory(l: Label, i: nat) { !Replaces(l, i) && (l.i == i ==> !l.SaveDirectory?) }

  lemma DirectoryStep(w: World, l: Label, i: nat)
    requires Enabled(w, l) && KeepsDirectory(l, i) && i < |w.hosts|
    ensures i < |Apply(w, l).hosts|
    ensures Apply(w, l).hosts[i].db.directoryPassword == w.hosts[i].db.directoryPassword
  {
  }

  lemma {:induction false} DirectoryRun(w: World, ls: seq<Label>, i: nat, key: Key)
    requires ValidRun(w, ls) && HostAtHome(w, i, key) && (forall k | 0 <= k < |ls| :: KeepsDirectory(ls[k], i))
    ensures HostAtHome(After(w, ls), i, key)
    ensures After(w, ls).hosts[i].db.directoryPassword == w.hosts[i].db.directoryPassword
    decreases |ls|
  {
    if ls != [] {
      AtHomeStep(w, ls[0], i, key);
      DirectoryStep(w, ls[0], i);
      DirectoryRun(Apply(w, ls[0]), ls[1..], i, key);
    }
  }

  /** An open host's directory password is the one saved last, whenever it runs, until another vault takes the host. */
  lemma DirectoryPasswordLasts(w: World, ls: seq<Label>, i: nat, password: string, rest: seq<Label>)
    requires Start(w) && ValidRun(w, ls) && Enabled(After(w, ls), SaveDirectory(i, password))
    requires After(w, ls).hosts[i].master.Some?
    requires var saved := Apply(After(w, ls), SaveDirectory(i, password));
             ValidRun(saved, rest) && forall k | 0 <= k < |rest| :: KeepsDirectory(rest[k], i)
    ensures var end := After(Apply(After(w, ls), SaveDirectory(i, password)), rest);
            && i < |end.hosts|
            && (end.hosts[i].running ==> DirectoryPassword(end.hosts[i].db, end.hosts[i].master) == Some(password))
  {
    var key := After(w, ls).hosts[i].master.value;
    OpenIsAtHome(w, ls, i);
    AtHomeStep(After(w, ls), SaveDirectory(i, password), i, key);
    DirectoryRun(Apply(After(w, ls), SaveDirectory(i, password)), rest, i, key);
  }
}
