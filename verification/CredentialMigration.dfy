/** Writing credentials (store.rs): into one sealed bundle, whole or in part, before old entries go. */
module CredentialMigration {
  import opened Common
  import opened ConfigModel
  import opened ConfigCommit
  import opened KeyStore
  import opened CredentialReading

  lemma BundleGrows(bundle: map<string, Payload>, connections: seq<RuntimeConnection>, c: RuntimeConnection)
    requires Bundles(bundle, connections) && RuntimeIds(connections)
    requires c.id != "" && forall i :: 0 <= i < |connections| ==> connections[i].id != c.id
    ensures Bundles(bundle[c.id := Payload(CREDENTIAL_PAYLOAD_VERSION, c.cred.connectionString, c.cred.env)], connections + [c])
    ensures RuntimeIds(connections + [c])
  {
    var all := connections + [c];
    var next := bundle[c.id := Payload(CREDENTIAL_PAYLOAD_VERSION, c.cred.connectionString, c.cred.env)];
    forall id | id in next ensures exists i :: 0 <= i < |all| && all[i].id == id {
      if id == c.id {
        assert all[|connections|].id == id;
      } else {
        var i :| 0 <= i < |connections| && connections[i].id == id;
        assert all[i].id == id;
      }
    }
  }

  /** The loop of persisted_config: reject empty and repeated ids, collect the payloads. */
  method CollectCredentials(connections: seq<RuntimeConnection>) returns (r: Option<map<string, Payload>>)
    ensures r.Some? ==> Bundles(r.value, connections) && RuntimeIds(connections)
    ensures r.Some? ==> (r.value == map[] <==> connections == [])
    ensures r.None? ==> !RuntimeIds(connections)
  {
    var seen: set<string> := {};
    var credentials: map<string, Payload> := map[];
    ghost var done: seq<RuntimeConnection> := [];
    for i := 0 to |connections|
      invariant done == connections[..i]
      invariant forall x :: x in seen <==> exists j :: 0 <= j < i && connections[j].id == x
      invariant RuntimeIds(done) && Bundles(credentials, done)
      invariant credentials == map[] <==> i == 0
    {
      var c := connections[i];
      if c.id == "" || c.id in seen {
        return None;
      }
      BundleGrows(credentials, done, c);
      done := done + [c];
      credentials := credentials[c.id := Payload(CREDENTIAL_PAYLOAD_VERSION, c.cred.connectionString, c.cred.env)];
      seen := seen + {c.id};
    }
    assert done == connections;
    return Some(credentials);
  }

  /** persisted_config: public metadata in the clear, every credential in one sealed bundle. */
  method PersistedConfig(m: Machine, config: RuntimeConfig, key: Option<Key>) returns (r: Option<DiskConfig>)
    modifies m
    ensures OnlyRead(old(m.w), old(m.history), m.w, m.history) && m.w.cache == old(m.w).cache
    ensures r.Some? ==> m.w == old(m.w) && Persists(r.value, config, key) && RuntimeIds(config.connections)
    ensures r.None? ==> m.w.faults > old(m.w).faults || !RuntimeIds(config.connections) || (config.connections != [] && key.None?)
  {
    var credentials := CollectCredentials(config.connections);
    if credentials.None? {
      return None;
    }
    var connections := PersistedConnections(config.connections);
    if credentials.value == map[] {
      return Some(DiskConfig(Some(CONFIG_VERSION), connections, config.active, None));
    }
    if key.None? {
      return None;
    }
    var sealed := m.Read(); // crypto::seal_with_key
    if !sealed {
      return None;
    }
    return Some(DiskConfig(Some(CONFIG_VERSION), connections, config.active,
                           Some(Sealed(key.value, SECRET_BUNDLE_VERSION, credentials.value))));
  }

  // ----- migrations -----

  predicate NoRefs(connections: seq<DiskConnection>) {
    forall i :: 0 <= i < |connections| ==> connections[i].credentialRef.None?
  }

  predicate Writable(config: RuntimeConfig, w: World, allowCreate: bool) {
    RuntimeIds(config.connections) && (config.connections != [] ==> KeyAvailable(w, allowCreate))
  }

  /**
   What migrating and saving share: get a key, build the config, commit it, or take a new key back.
   Until it reports success the store is only ever allowed what `promise` allows, once it has returned.
   */
  method WriteAll(m: Machine, config: RuntimeConfig, allowCreate: bool, mode: BackupMode,
                  ghost base: nat, ghost promise: Promise, ghost wider: Promise) returns (ok: bool, ghost written: DiskConfig)
    requires Steady(m.w.files) && Fine(base, m.w, promise) && Widens(promise, wider)
    requires allowCreate && m.w.cache.None? ==> Loaded(m.w.files).Some? && !HasBlob(Loaded(m.w.files).value)
    requires m.w.faults <= base + 1 ==> Meaning(RuntimeView(config), config.active) in wider.meanings
    modifies m
    ensures AllFine(base, old(m.history), m.history, wider) && Fine(base, m.w, wider)
    ensures !ok ==> Fine(base, m.w, promise)
    ensures !ok && m.w.faults <= old(m.w).faults + 1 ==>
              m.w.files.primary == old(m.w).files.primary && m.w.files.backup == old(m.w).files.backup
    ensures old(m.w).faults <= m.w.faults
    ensures ok ==> m.w.files.primary == m.w.files.backup == Holds(written)
    ensures ok ==> written.version == Some(CONFIG_VERSION) && NoRefs(written.connections) && NoPlaintext(written.connections)
    ensures ok && m.w.faults <= base + 1 ==> MeaningOf(written, m.w.keyring) == Meaning(RuntimeView(config), config.active)
    ensures ok ==> Writable(config, old(m.w), allowCreate)
    ensures !ok ==> m.w.faults > old(m.w).faults || !Writable(config, old(m.w), allowCreate)
  {
    written := EMPTY_CONFIG;
    ghost var before := m.history;
    var key: Option<Key>, created := None, false;
    if config.connections != [] {
      var k := MasterKeyOf(m, allowCreate, base, promise);
      WiderIsFine(base, before, m.history, promise, wider);
      if k.None? {
        return false, written;
      }
      key, created := Some(k.value.0), k.value.1;
    }
    ghost var keyed := m.history;
    var persisted := PersistedConfig(m, config, key);
    if persisted.None? {
      if created {
        RollbackNewMasterKey(m, key.value, base, promise);
        WiderIsFine(base, keyed, m.history, promise, wider);
        AllFineTwice(base, before, keyed, m.history, wider);
      }
      return false, written;
    }
    written := persisted.value;
    assert NoRefs(written.connections) && NoPlaintext(written.connections);
    if m.w.faults <= base + 1 {
      PersistedMeans(written, config, key, m.w.keyring);
    }
    ok := Commit(m, persisted.value, mode, key, created, base, promise, wider);
    AllFineTwice(base, before, keyed, m.history, wider);
  }

  /** Both files hold one and the same encrypted config that needs nothing but its bundle. */
  predicate FullyMigrated(f: Files) {
    f.primary.Holds? && f.primary == f.backup && f.primary.config.version == Some(CONFIG_VERSION) &&
    NoRefs(f.primary.config.connections) && NoPlaintext(f.primary.config.connections)
  }

  /** migrate_config: everything into the bundle; the old keyring entries go only after the commit. */
  method MigrateConfig(m: Machine, config: RuntimeConfig, oldReferences: set<string>,
                       ghost base: nat, ghost promise: Promise) returns (ok: bool)
    requires Steady(m.w.files) && Fine(base, m.w, promise)
    requires m.w.cache.None? ==> Loaded(m.w.files).Some? && !HasBlob(Loaded(m.w.files).value)
    requires m.w.faults <= base + 1 ==> Meaning(RuntimeView(config), config.active) in promise.meanings
    requires MASTER_KEY_REFERENCE !in oldReferences
    modifies m
    ensures AllFine(base, old(m.history), m.history, promise) && Fine(base, m.w, promise)
    ensures old(m.w).faults <= m.w.faults
    ensures ok ==> Writable(config, old(m.w), true)
    ensures !ok ==> m.w.faults > old(m.w).faults || !Writable(config, old(m.w), true)
    ensures ok ==> FullyMigrated(m.w.files)
    ensures ok && m.w.faults == old(m.w).faults ==> m.w.keyring.Keys !! oldReferences
    ensures ok && m.w.faults == old(m.w).faults <= base + 1 ==>
              MeaningOf(m.w.files.primary.config, m.w.keyring) == Meaning(RuntimeView(config), config.active)
  {
    ghost var before := m.history;
    ghost var written;
    ok, written := WriteAll(m, config, true, ReplaceLegacy, base, promise, promise);
    if !ok {
      return;
    }
    ok := CleanUp(m, base, promise);
    if !ok {
      return;
    }
    assert Candidates(m.w.files) == {written};
    ghost var cleaned := m.w;
    AllWithoutRefs(written, cleaned.keyring, oldReferences);
    DeleteReferences(m, oldReferences, base, promise);
  }

  /** A config without references needs no keyring entry. */
  lemma AllWithoutRefs(cfg: DiskConfig, keyring: Keyring, references: set<string>)
    requires DiskFormat(cfg) == Some(Encrypted) && NoRefs(cfg.connections) && MASTER_KEY_REFERENCE !in references
    ensures NeedsNone(cfg, keyring, references) && MeaningOf(cfg, keyring - references) == MeaningOf(cfg, keyring)
  {
    DeletingRefsHarmlessIff(cfg, keyring, references);
  }

  /** The config persist_partial_encrypted_config writes. */
  function PartialConfig(connections: seq<DiskConnection>, active: Option<string>, payloads: map<string, Payload>, key: Key): DiskConfig {
    DiskConfig(Some(CONFIG_VERSION), connections, active, Some(Sealed(key, SECRET_BUNDLE_VERSION, payloads)))
  }

  ghost predicate CanPersist(connections: seq<DiskConnection>) {
    DistinctIds(connections) && NoPlaintext(connections) && RefsInOrder(connections)
  }

  /** The check persisted_config_from_disk makes of what stays on disk. */
  method Persistable(connections: seq<DiskConnection>) returns (ok: bool)
    ensures ok <==> CanPersist(connections)
  {
    ok := ValidateConnectionIds(connections);
    if !ok {
      return;
    }
    var references: set<string> := {};
    for i := 0 to |connections|
      invariant references == AllRefs(connections[..i])
      invariant forall j :: 0 <= j < i ==>
                  connections[j].legacy.None? && connections[j].legacyEnv == map[] &&
                  RefInOrder(connections[j], AllRefs(connections[..j]))
    {
      var c := connections[i];
      if c.legacy.Some? || c.legacyEnv != map[] {
        return false;
      }
      AllRefsGrow(connections, i);
      if c.credentialRef.Some? {
        if !ValidReference(c.credentialRef.value) || c.credentialRef.value in references {
          return false;
        }
        references := references + {c.credentialRef.value};
      }
    }
  }

  /** Until the old entries go every state is fine; afterwards too, if nothing left behind needs them. */
  method PersistPartial(m: Machine, connections: seq<DiskConnection>, active: Option<string>, payloads: map<string, Payload>,
                        migrated: set<string>, key: Key, created: bool, mode: BackupMode,
                        ghost base: nat, ghost promise: Promise) returns (ok: bool)
    requires Steady(m.w.files) && Fine(base, m.w, promise) && m.w.cache == Some(key)
    requires m.w.faults <= base + 1 && NoPlaintext(connections) ==>
               Sound(PartialConfig(connections, active, payloads, key), m.w.keyring, promise)
    requires created && m.w.faults <= base + 1 ==> forall c :: c in Candidates(m.w.files) ==> !HasBlob(c)
    requires MASTER_KEY_REFERENCE !in migrated
    modifies m
    ensures old(m.history) <= m.history
    ensures (old(m.w).faults <= base + 1 && CanPersist(connections) ==>
               NeedsNone(PartialConfig(connections, active, payloads, key), old(m.w).keyring, migrated)) ==>
              AllFine(base, old(m.history), m.history, promise) && Fine(base, m.w, promise)
    ensures !ok ==> AllFine(base, old(m.history), m.history, promise) && Fine(base, m.w, promise)
    ensures old(m.w).faults <= m.w.faults
    ensures ok ==> CanPersist(connections)
    ensures !ok ==> m.w.faults > old(m.w).faults || !CanPersist(connections)
    ensures ok ==> m.w.files.primary == m.w.files.backup == Holds(PartialConfig(connections, active, payloads, key))
    ensures ok && m.w.faults == old(m.w).faults ==> m.w.keyring.Keys !! migrated
  {
    ghost var before := m.history;
    ok := m.Read(); // seal_credential_bundle
    var persistable := Persistable(connections);
    if !ok || !persistable {
      if created {
        RollbackNewMasterKey(m, key, base, promise);
      }
      return false;
    }
    var next := PartialConfig(connections, active, payloads, key);
    ok := Commit(m, next, mode, Some(key), created, base, promise, promise);
    if !ok {
      return;
    }
    ghost var committed := m.history;
    ok := CleanUp(m, base, promise);
    AllFineTwice(base, before, committed, m.history, promise);
    if !ok {
      return;
    }
    assert Candidates(m.w.files) == {next};
    ghost var cleaned := m.history;
    DeleteReferences(m, migrated, base, promise);
    if AllFine(base, cleaned, m.history, promise) {
      AllFineTwice(base, before, cleaned, m.history, promise);
    }
  }
}
