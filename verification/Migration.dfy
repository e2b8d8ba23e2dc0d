/** Staging and applying an import (`migrate.rs`): what a success swaps, and that a refusal at any stage
    leaves the served data, key, tickets, connections, generation and backups as they were. */
module Migration {
  import opened Common
  import opened Crypto
  import opened Live
  import opened Retention
  import opened Text
  import opened Vault
  import VaultTheorems
  import T = Tickets

  const PENDING_TTL: nat := 1800
  const MAX_PENDING: nat := 2
  const KEEP_BACKUPS: nat := 5

  datatype Pending = Pending(archive: PassBlob, uploaded: int)

  datatype Failure = BadArchive | NotConfirmed | Expired | Integrity | Refused(why: VaultError) | StoreFailed | IoFailed

  /** What the file system and the database engine do during one attempt. `stamp` names the backup and
      `listing` is what the directory shows afterwards. */
  datatype Io = Io(writes: bool, opens: bool, intact: bool, copies: bool, swaps: bool, removes: bool,
                   stamp: string, listing: Option<seq<string>>, stuck: set<string>)

  predicate Waits(p: Pending, now: int) { now - p.uploaded < PENDING_TTL }

  /** The archive a confirmation would apply. */
  function Confirmable(imports: map<string, Pending>, upload: string, now: int): Option<PassBlob> {
    if upload in imports && Waits(imports[upload], now) then Some(imports[upload].archive) else None
  }

  /** A fresh host holds the administrator running the import and nothing else. */
  predicate HoldsData(db: Database) { |db.servers| > 0 || |db.users| > 1 }

  function BackupFile(io: Io): string { "backup-" + io.stamp + ".db" }

  /** The archive is one this passphrase opens, its own recovery wrap opens with it too, and nothing fails on the way;
      the backup has a name of its own. */
  predicate Applies(host: nat, archive: PassBlob, passphrase: string, io: Io, files: set<string>) {
    && VaultTheorems.Imported(host, archive, passphrase).Ok?
    && io.writes && io.opens && io.intact && io.copies && io.swaps && BackupFile(io) !in files
  }

  class Service {
    const hostName: string
    const store: Store
    const vault: Vault
    const tickets: T.Tickets
    const live: LiveSessions
    const backups: Folder
    var generation: nat
    var imports: map<string, Pending>

    constructor (hostName: string, store: Store, vault: Vault, tickets: T.Tickets, live: LiveSessions, backups: Folder)
      ensures this.hostName == hostName && this.store == store && this.vault == vault
      ensures this.tickets == tickets && this.live == live && this.backups == backups
      ensures generation == 0 && imports == map[]
    {
      this.hostName, this.store, this.vault := hostName, store, vault;
      this.tickets, this.live, this.backups := tickets, live, backups;
      generation, imports := 0, map[];
    }

    /** Decrypt, validate, back up, swap. */
    method ApplyImport(archive: PassBlob, passphrase: string, io: Io) returns (failed: Option<Failure>)
      requires live.Valid() && (io.listing.Some? ==> Distinct(io.listing.value))
      modifies this`generation, store, vault, tickets, live`inner, backups
      ensures live.Valid()
      ensures failed != Some(Expired) && failed != Some(NotConfirmed)
      ensures failed.None? <==> Applies(vault.host, archive, passphrase, io, old(backups.files))
      ensures failed.Some? ==>
                && store.db == old(store.db) && vault.master == old(vault.master) && generation == old(generation)
                && tickets.issued == old(tickets.issued) && live.inner == old(live.inner)
                && (backups.files == old(backups.files)
                    || (!io.swaps && !io.removes && backups.files == old(backups.files) + {BackupFile(io)}))
      ensures failed.None? ==>
                && VaultTheorems.Imported(vault.host, archive, passphrase).Ok?
                && var (db, key) := VaultTheorems.Imported(vault.host, archive, passphrase).value;
                && store.db == db && vault.master == Some(key) && generation == old(generation) + 1
                && tickets.issued == map[] && live.inner == Ended(old(live.inner), Everyone)
                && BackupFile(io) !in old(backups.files)
                && backups.files
                   == old(backups.files) + {BackupFile(io)}
                      - (if io.listing.Some? then Surplus(Found(io.listing.value, IsBackup), KEEP_BACKUPS) - io.stuck
                         else {})
    {
      var plain := DecryptWithPassphrase(passphrase, AAD_EXPORT, archive);
      if plain.Err? { return Some(Refused(plain.error)); }
      if !io.writes { return Some(IoFailed); }
      if !io.opens || !plain.value.DatabasePlain? { return Some(StoreFailed); }
      if !io.intact { return Some(Integrity); }
      var staged := new Store(plain.value.db);
      var key := vault.Adopt(staged, passphrase);
      if key.Err? { return Some(Refused(key.error)); }
      if !io.copies || BackupFile(io) in backups.files { return Some(StoreFailed); }
      backups.files := backups.files + {BackupFile(io)};
      if !io.swaps {
        if io.removes { backups.files := backups.files - {BackupFile(io)}; }
        return Some(StoreFailed);
      }
      store.db := staged.db;
      backups.PruneBackups(io.listing, KEEP_BACKUPS, io.stuck);
      generation := generation + 1;
      vault.Install(key.value);
      tickets.Clear();
      live.EndWhere(Everyone);
      return None;
    }

    /** A refused import leaves the upload where it is, so that it can be confirmed again. */
    method Confirm(upload: string, passphrase: string, confirmHost: Option<string>, now: int, io: Io)
      returns (failed: Option<Failure>)
      requires live.Valid() && (io.listing.Some? ==> Distinct(io.listing.value))
      modifies this`generation, this`imports, store, vault, tickets, live`inner, backups
      ensures live.Valid()
      ensures failed.Some? ==>
                && store.db == old(store.db) && vault.master == old(vault.master) && generation == old(generation)
                && tickets.issued == old(tickets.issued) && live.inner == old(live.inner)
                && imports == old(imports)
                && (backups.files == old(backups.files)
                    || (!io.swaps && !io.removes && backups.files == old(backups.files) + {BackupFile(io)}))
      ensures failed.None? ==>
                && Confirmable(old(imports), upload, now).Some?
                && (HoldsData(old(store.db)) ==>
                      confirmHost.Some? && SameIgnoringCase(Trim(confirmHost.value), hostName))
                && imports == old(imports) - {upload}
                && generation == old(generation) + 1 && tickets.issued == map[]
                && (forall c | c in live.inner :: !live.inner[c].armed)
                && vault.master.Some?
                && VaultTheorems.Imported(vault.host, Confirmable(old(imports), upload, now).value, passphrase)
                   == Ok((store.db, vault.master.value))
      ensures failed.None? <==>
                && Confirmable(old(imports), upload, now).Some?
                && (HoldsData(old(store.db)) ==>
                      confirmHost.Some? && SameIgnoringCase(Trim(confirmHost.value), hostName))
                && Applies(vault.host, Confirmable(old(imports), upload, now).value, passphrase, io,
                           old(backups.files))
      ensures failed == Some(Expired) <==> Confirmable(old(imports), upload, now).None?
      ensures failed == Some(NotConfirmed) <==>
                && Confirmable(old(imports), upload, now).Some? && HoldsData(old(store.db))
                && !(confirmHost.Some? && SameIgnoringCase(Trim(confirmHost.value), hostName))
    {
      if upload !in imports || !Waits(imports[upload], now) { return Some(Expired); }
      var confirmed := confirmHost.Some? && SameIgnoringCase(Trim(confirmHost.value), hostName);
      if HoldsData(store.db) && !confirmed { return Some(NotConfirmed); }
      failed := ApplyImport(imports[upload].archive, passphrase, io);
      if failed.None? { imports := imports - {upload}; }
    }

    /** An archive is held; the oldest give way so that two are held at most. */
    method Stage(id: string, archive: Option<PassBlob>, now: int) returns (ok: bool)
      requires id !in imports
      modifies this`imports
      ensures ok <==> archive.Some?
      ensures !ok ==> imports == old(imports)
      ensures ok ==> Staged(old(imports), imports, id, Pending(archive.value, now), now)
    {
      if archive.None? { return false; }
      var waiting := map k | k in imports && Waits(imports[k], now) :: imports[k];
      var pending := MakeRoom(waiting);
      RoomIsStaged(imports, waiting, pending, id, Pending(archive.value, now), now);
      imports := pending[id := Pending(archive.value, now)];
      return true;
    }

    /** The upload can never be confirmed again; every other can be exactly when it could before, for the same
        archive. */
    method Cancel(upload: string) returns (held: bool)
      modifies this`imports
      ensures held <==> upload in old(imports)
      ensures imports == old(imports) - {upload}
      ensures forall now :: Confirmable(imports, upload, now).None?
      ensures forall other, now | other != upload ::
                Confirmable(imports, other, now) == Confirmable(old(imports), other, now)
    {
      held := upload in imports;
      imports := imports - {upload};
    }
  }

  /** The entries of a table under some of its keys. */
  function KeptOf(table: map<string, Pending>, keys: set<string>): map<string, Pending> {
    map k | k in table && k in keys :: table[k]
  }

  /** The upload is held with what it found waiting; a waiting one gave way only to make two, and only if no kept one is
      older. */
  ghost predicate Staged(before: map<string, Pending>, after: map<string, Pending>, id: string, p: Pending, now: int) {
    && id in after && after[id] == p && |after| <= MAX_PENDING
    && after - {id} == KeptOf(before, after.Keys - {id})
    && (forall k | k in after && k != id :: Waits(after[k], now))
    && (forall g | g in before && g !in after && Waits(before[g], now) :: |after| == MAX_PENDING)
    && (forall g, k | g in before && g !in after && Waits(before[g], now) && k in after && k != id ::
          before[g].uploaded <= after[k].uploaded)
  }

  lemma RoomIsStaged(before: map<string, Pending>, waiting: map<string, Pending>, pending: map<string, Pending>,
                     id: string, p: Pending, now: int)
    requires id !in before && waiting == (map k | k in before && Waits(before[k], now) :: before[k])
    requires pending.Keys <= waiting.Keys && forall k | k in pending :: pending[k] == waiting[k]
    requires |pending| < MAX_PENDING && (|pending| == MAX_PENDING - 1 || pending == waiting)
    requires forall g, k | g in waiting && g !in pending && k in pending ::
               waiting[g].uploaded <= waiting[k].uploaded
    ensures Staged(before, pending[id := p], id, p, now)
  {
    var after := pending[id := p];
    OneMore(pending, id, p);
    assert after - {id} == pending;
    assert KeptOf(before, after.Keys - {id}) == pending;
    forall g | g in before && g !in after && Waits(before[g], now) ensures |after| == MAX_PENDING {
      assert g in waiting && g !in pending;
    }
  }

  lemma OneFewer(table: map<string, Pending>, id: string)
    requires id in table
    ensures |table - {id}| == |table| - 1
  {
    assert (table - {id}).Keys == table.Keys - {id};
    assert |table.Keys| == |table| && |(table - {id}).Keys| == |table - {id}|;
  }

  lemma OneMore(table: map<string, Pending>, id: string, p: Pending)
    requires id !in table
    ensures |table[id := p]| == |table| + 1
  {
    assert table[id := p].Keys == table.Keys + {id};
    assert |table.Keys| == |table| && |table[id := p].Keys| == |table[id := p]|;
  }

  /** The oldest give way until one more fits, and no more of them. */
  method MakeRoom(live: map<string, Pending>) returns (pending: map<string, Pending>)
    ensures pending.Keys <= live.Keys && forall k | k in pending :: pending[k] == live[k]
    ensures |pending| < MAX_PENDING && (|pending| == MAX_PENDING - 1 || pending == live)
    ensures forall g, k | g in live && g !in pending && k in pending :: live[g].uploaded <= live[k].uploaded
  {
    pending := live;
    while |pending| >= MAX_PENDING
      invariant pending.Keys <= live.Keys && forall k | k in pending :: pending[k] == live[k]
      invariant |pending| >= MAX_PENDING - 1 || pending == live
      invariant forall g, k | g in live && g !in pending && k in pending :: live[g].uploaded <= live[k].uploaded
      decreases |pending|
    {
      var oldest := Oldest(pending);
      OneFewer(pending, oldest);
      pending := pending - {oldest};
    }
  }

  method Oldest(pending: map<string, Pending>) returns (id: string)
    requires |pending| > 0
    ensures id in pending && forall k | k in pending :: pending[id].uploaded <= pending[k].uploaded
  {
    var todo := pending.Keys;
    assert |pending.Keys| == |pending|;
    id :| id in todo;
    todo := todo - {id};
    while todo != {}
      invariant todo <= pending.Keys && id in pending
      invariant forall k | k in pending && k !in todo :: pending[id].uploaded <= pending[k].uploaded
      decreases |todo|
    {
      var k :| k in todo;
      if pending[k].uploaded < pending[id].uploaded { id := k; }
      todo := todo - {k};
    }
  }
}
