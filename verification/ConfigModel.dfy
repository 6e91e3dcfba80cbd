/**
 The connection store of store.rs as values: the three on-disk formats, the files a commit moves
 around, the operating-system keyring, and what they mean together. Sealing is an abstract keyed
 box, serialisation a file that either holds a config or does not parse.
 */
module ConfigModel {
  import opened Common

  const CONFIG_VERSION: nat := 2
  const PER_CONNECTION_CONFIG_VERSION: nat := 1
  const CREDENTIAL_PAYLOAD_VERSION: nat := 1
  const SECRET_BUNDLE_VERSION: nat := 1
  const CREDENTIAL_REFERENCE_PREFIX := "connection/"
  const MASTER_KEY_REFERENCE := "master-key/v1"

  type Env = map<string, string>

  datatype Key = Key(bytes: nat)

  datatype Metadata = Metadata(name: string, environment: Option<string>, color: Option<string>)

  datatype Payload = Payload(version: nat, connectionString: string, env: Env)

  /** A credential bundle sealed under a key; it opens under that key and no other. */
  datatype Sealed = Sealed(key: Key, version: nat, credentials: map<string, Payload>)

  datatype DiskConnection = DiskConnection(
    id: string, meta: Metadata, credentialRef: Option<string>,
    legacy: Option<string>, legacyEnv: Env)

  datatype DiskConfig = DiskConfig(
    version: Option<nat>, connections: seq<DiskConnection>,
    active: Option<string>, secrets: Option<Sealed>)

  const EMPTY_CONFIG := DiskConfig(Some(CONFIG_VERSION), [], None, None)

  datatype File = Absent | Garbage | Holds(config: DiskConfig)

  datatype Slot = Primary | Backup | Tmp | BackupTmp | Aside

  datatype Files = Files(primary: File, backup: File, tmp: File, backupTmp: File, aside: File) {
    function Get(s: Slot): File {
      match s
      case Primary => primary
      case Backup => backup
      case Tmp => tmp
      case BackupTmp => backupTmp
      case Aside => aside
    }

    function Put(s: Slot, f: File): Files {
      match s
      case Primary => this.(primary := f)
      case Backup => this.(backup := f)
      case Tmp => this.(tmp := f)
      case BackupTmp => this.(backupTmp := f)
      case Aside => this.(aside := f)
    }
  }

  datatype Secret = MasterKey(key: Key) | Credential(payload: Payload) | Junk

  type Keyring = map<string, Secret>

  /** Everything an operation can change. `faults` counts the operations that have failed so far. */
  datatype World = World(files: Files, keyring: Keyring, cache: Option<Key>, faults: nat)

  datatype Cred = Cred(connectionString: string, env: Env)

  datatype RuntimeConnection = RuntimeConnection(id: string, meta: Metadata, cred: Cred)

  datatype RuntimeConfig = RuntimeConfig(connections: seq<RuntimeConnection>, active: Option<string>)

  datatype Format = Plaintext | PerConnection | Encrypted

  function DiskFormat(cfg: DiskConfig): Option<Format> {
    match cfg.version
    case None => Some(Plaintext)
    case Some(v) =>
      if v == PER_CONNECTION_CONFIG_VERSION then Some(PerConnection)
      else if v == CONFIG_VERSION then Some(Encrypted)
      else None
  }

  /** The config the next load would start from: the primary, else the backup, else nothing yet. */
  function Loaded(f: Files): Option<DiskConfig> {
    match f.primary
    case Holds(cfg) => Some(cfg)
    case Garbage => if f.backup.Holds? then Some(f.backup.config) else None
    case Absent =>
      if f.backup.Holds? then Some(f.backup.config)
      else if f.backup.Absent? then Some(EMPTY_CONFIG)
      else None
  }

  /**
   Every config a load could come back with: a primary that cannot be read, even for a moment,
   makes the load fall back on the backup.
   */
  function Candidates(f: Files): set<DiskConfig> {
    (if f.primary.Holds? then {f.primary.config} else {}) +
    (if f.backup.Holds? then {f.backup.config} else {}) +
    (if f.primary.Absent? && f.backup.Absent? then {EMPTY_CONFIG} else {})
  }

  // ----- what a config means -----

  predicate ValidReference(reference: string) {
    CREDENTIAL_REFERENCE_PREFIX <= reference
  }

  function KeyringPayload(reference: Option<string>, keyring: Keyring): Option<Payload> {
    if && reference.Some? && ValidReference(reference.value) && reference.value in keyring
       && keyring[reference.value].Credential?
       && keyring[reference.value].payload.version == CREDENTIAL_PAYLOAD_VERSION
    then Some(keyring[reference.value].payload)
    else None
  }

  function MasterOf(keyring: Keyring): Option<Key> {
    if MASTER_KEY_REFERENCE in keyring && keyring[MASTER_KEY_REFERENCE].MasterKey?
    then Some(keyring[MASTER_KEY_REFERENCE].key)
    else None
  }

  /** What a load finds in the encrypted bundle. */
  function Opened(cfg: DiskConfig, keyring: Keyring): map<string, Payload> {
    if && cfg.secrets.Some? && MasterOf(keyring) == Some(cfg.secrets.value.key)
       && cfg.secrets.value.version == SECRET_BUNDLE_VERSION
    then cfg.secrets.value.credentials
    else map[]
  }

  /** The credential of one connection: plaintext field, else bundle entry, else keyring entry. */
  function CredentialOf(c: DiskConnection, cfg: DiskConfig, keyring: Keyring): Option<Cred> {
    match DiskFormat(cfg)
    case None => None
    case Some(Encrypted) =>
      var bundle := Opened(cfg, keyring);
      if c.id in bundle then
        if bundle[c.id].version == CREDENTIAL_PAYLOAD_VERSION then Some(Cred(bundle[c.id].connectionString, bundle[c.id].env)) else None
      else
        (match KeyringPayload(c.credentialRef, keyring)
         case Some(p) => Some(Cred(p.connectionString, p.env))
         case None => None)
    case Some(_) =>
      if c.legacy.Some? then Some(Cred(c.legacy.value, c.legacyEnv))
      else
        match KeyringPayload(c.credentialRef, keyring)
        case Some(p) => Some(Cred(p.connectionString, if c.legacyEnv != map[] then c.legacyEnv else p.env))
        case None => None
  }

  /**
   Where a credential comes from, format by format. Version 2: the bundle, if it opens under the keyring's
   master key, else the keyring entry. No version or version 1: the plaintext field, else the keyring
   entry, whose environment gives way to one in the file. Nothing else means anything.
   */
  lemma CredentialMeans(c: DiskConnection, cfg: DiskConfig, keyring: Keyring)
    ensures var entry := c.credentialRef.Some? && "connection/" <= c.credentialRef.value && c.credentialRef.value in keyring &&
                         keyring[c.credentialRef.value].Credential? && keyring[c.credentialRef.value].payload.version == 1;
            var opens := cfg.secrets.Some? && cfg.secrets.value.version == 1 && "master-key/v1" in keyring &&
                         keyring["master-key/v1"] == MasterKey(cfg.secrets.value.key);
            match cfg.version
            case Some(v) =>
              if v == 2 then
                if opens && c.id in cfg.secrets.value.credentials then
                  var p := cfg.secrets.value.credentials[c.id];
                  CredentialOf(c, cfg, keyring) == if p.version == 1 then Some(Cred(p.connectionString, p.env)) else None
                else if entry then
                  var p := keyring[c.credentialRef.value].payload;
                  CredentialOf(c, cfg, keyring) == Some(Cred(p.connectionString, p.env))
                else CredentialOf(c, cfg, keyring) == None
              else v == 1 && (c.legacy.Some? || entry) <==> CredentialOf(c, cfg, keyring).Some?
            case None => c.legacy.Some? || entry <==> CredentialOf(c, cfg, keyring).Some?
    ensures cfg.version == None || cfg.version == Some(1) ==>
              (c.legacy.Some? ==> CredentialOf(c, cfg, keyring) == Some(Cred(c.legacy.value, c.legacyEnv))) &&
              (c.legacy == None && CredentialOf(c, cfg, keyring).Some? ==>
                 c.credentialRef.Some? && c.credentialRef.value in keyring && keyring[c.credentialRef.value].Credential? &&
                 var p := keyring[c.credentialRef.value].payload;
                 CredentialOf(c, cfg, keyring) == Some(Cred(p.connectionString, if c.legacyEnv != map[] then c.legacyEnv else p.env)))
  {
  }

  datatype Meant = Meant(id: string, meta: Metadata, cred: Option<Cred>)

  datatype Meaning = Meaning(connections: seq<Meant>, active: Option<string>)

  function View(cfg: DiskConfig, keyring: Keyring): seq<Meant> {
    seq(|cfg.connections|, i requires 0 <= i < |cfg.connections| =>
      var c := cfg.connections[i];
      Meant(c.id, c.meta, CredentialOf(c, cfg, keyring)))
  }

  function MeaningOf(cfg: DiskConfig, keyring: Keyring): Meaning {
    Meaning(View(cfg, keyring), cfg.active)
  }

  function RuntimeView(config: RuntimeConfig): seq<Meant> {
    seq(|config.connections|, i requires 0 <= i < |config.connections| =>
      var c := config.connections[i];
      Meant(c.id, c.meta, Some(c.cred)))
  }

  // ----- what every reachable state must satisfy -----

  predicate HasBlob(cfg: DiskConfig) {
    cfg.version == Some(CONFIG_VERSION) && cfg.secrets.Some?
  }

  /** A cached master key is the keyring's. */
  predicate CacheTrue(w: World) {
    w.cache.Some? ==> MasterOf(w.keyring) == w.cache
  }

  /** What every config on disk is held to: one of `meanings` and, if asked, no shared references. */
  datatype Promise = Promise(meanings: set<Meaning>, distinctRefs: bool)

  /** A config that keeps the promise and whose sealed blob opens under the keyring's key. */
  predicate Sound(cfg: DiskConfig, keyring: Keyring, promise: Promise) {
    && MeaningOf(cfg, keyring) in promise.meanings
    && (HasBlob(cfg) ==> MasterOf(keyring) == Some(cfg.secrets.value.key))
    && (promise.distinctRefs ==> DistinctRefs(cfg.connections))
  }

  /** Whatever a load could read is sound, and it can read something. */
  ghost predicate Good(w: World, promise: Promise) {
    && CacheTrue(w)
    && Candidates(w.files) != {}
    && forall cfg :: cfg in Candidates(w.files) ==> Sound(cfg, w.keyring, promise)
  }

  // ----- conditions the code checks -----

  predicate DistinctIds(connections: seq<DiskConnection>) {
    && (forall i :: 0 <= i < |connections| ==> connections[i].id != "")
    && (forall i, j :: 0 <= i < j < |connections| ==> connections[i].id != connections[j].id)
  }

  predicate NoPlaintext(connections: seq<DiskConnection>) {
    forall i :: 0 <= i < |connections| ==> connections[i].legacy.None? && connections[i].legacyEnv == map[]
  }

  /** No two connections point at the same keyring entry. */
  predicate DistinctRefs(connections: seq<DiskConnection>) {
    forall i, j :: 0 <= i < j < |connections| && connections[i].credentialRef.Some? ==>
      connections[i].credentialRef != connections[j].credentialRef
  }

  // ----- what gets written -----

  function PersistedConnections(connections: seq<RuntimeConnection>): seq<DiskConnection> {
    seq(|connections|, i requires 0 <= i < |connections| =>
      DiskConnection(connections[i].id, connections[i].meta, None, None, map[]))
  }

  predicate RuntimeIds(connections: seq<RuntimeConnection>) {
    && (forall i :: 0 <= i < |connections| ==> connections[i].id != "")
    && (forall i, j :: 0 <= i < j < |connections| ==> connections[i].id != connections[j].id)
  }

  /** `bundle` seals exactly the credentials of `connections`. */
  ghost predicate Bundles(bundle: map<string, Payload>, connections: seq<RuntimeConnection>) {
    && (forall i :: 0 <= i < |connections| ==>
          connections[i].id in bundle &&
          bundle[connections[i].id] == Payload(CREDENTIAL_PAYLOAD_VERSION, connections[i].cred.connectionString, connections[i].cred.env))
    && (forall id :: id in bundle ==> exists i :: 0 <= i < |connections| && connections[i].id == id)
  }

  ghost predicate Persists(cfg: DiskConfig, config: RuntimeConfig, key: Option<Key>) {
    && cfg.version == Some(CONFIG_VERSION) && cfg.active == config.active
    && cfg.connections == PersistedConnections(config.connections)
    && (if config.connections == [] then cfg.secrets == None
        else key.Some? && cfg.secrets.Some? && cfg.secrets.value.key == key.value &&
             cfg.secrets.value.version == SECRET_BUNDLE_VERSION &&
             Bundles(cfg.secrets.value.credentials, config.connections))
  }

  /** What is written means exactly the runtime config it was made from. */
  lemma PersistedMeans(cfg: DiskConfig, config: RuntimeConfig, key: Option<Key>, keyring: Keyring)
    requires Persists(cfg, config, key) && RuntimeIds(config.connections)
    requires config.connections != [] ==> MasterOf(keyring) == key
    ensures View(cfg, keyring) == RuntimeView(config)
  {
    forall i | 0 <= i < |config.connections| ensures View(cfg, keyring)[i] == RuntimeView(config)[i] {
      assert cfg.connections[i].id == config.connections[i].id;
    }
  }

  // ----- what a change of the keyring can do to a meaning -----

  predicate SameEntries(kr: Keyring, kr': Keyring) {
    && (forall r :: r in kr && ValidReference(r) ==> r in kr' && kr'[r] == kr[r])
    && (forall r :: r in kr' && ValidReference(r) ==> r in kr)
  }

  lemma MasterKeyIsNoReference()
    ensures !ValidReference(MASTER_KEY_REFERENCE)
  {
    assert MASTER_KEY_REFERENCE[0] != CREDENTIAL_REFERENCE_PREFIX[0];
  }

  /** The master key matters only to a config with a blob. */
  lemma MasterKeyFrame(cfg: DiskConfig, kr: Keyring, kr': Keyring)
    requires SameEntries(kr, kr')
    requires HasBlob(cfg) ==> MasterOf(kr) == MasterOf(kr')
    ensures View(cfg, kr) == View(cfg, kr')
  {
    forall i | 0 <= i < |cfg.connections|
      ensures CredentialOf(cfg.connections[i], cfg, kr) == CredentialOf(cfg.connections[i], cfg, kr')
    {
      assert KeyringPayload(cfg.connections[i].credentialRef, kr) == KeyringPayload(cfg.connections[i].credentialRef, kr');
    }
  }

  /** Deleting entries that no connection refers to changes nothing. */
  lemma UnusedEntriesFrame(cfg: DiskConfig, kr: Keyring, gone: set<string>)
    requires MASTER_KEY_REFERENCE !in gone
    requires forall i :: 0 <= i < |cfg.connections| && cfg.connections[i].credentialRef.Some? ==>
               cfg.connections[i].credentialRef.value !in gone
    ensures View(cfg, kr - gone) == View(cfg, kr)
    ensures MasterOf(kr - gone) == MasterOf(kr)
  {
    forall i | 0 <= i < |cfg.connections|
      ensures CredentialOf(cfg.connections[i], cfg, kr - gone) == CredentialOf(cfg.connections[i], cfg, kr)
    {
      assert KeyringPayload(cfg.connections[i].credentialRef, kr - gone) == KeyringPayload(cfg.connections[i].credentialRef, kr);
    }
  }

  // ----- migrating one entry -----

  /** The plaintext field wins; the selected connection contributes its fetched keyring payload. */
  function PayloadFor(c: DiskConnection, id: string, fetched: Option<Payload>): Option<Payload> {
    if c.legacy.Some? then Some(Payload(CREDENTIAL_PAYLOAD_VERSION, c.legacy.value, c.legacyEnv))
    else if c.id == id then fetched
    else None
  }

  /** What stays of a connection on disk once its credential is in the bundle. */
  function Stripped(c: DiskConnection, id: string): DiskConnection {
    if c.legacy.Some? then c.(legacy := None, legacyEnv := map[], credentialRef := None)
    else if c.id == id then c.(credentialRef := None)
    else c
  }

  predicate Taken(c: DiskConnection, id: string) {
    c.legacy.Some? || c.id == id
  }

  ghost predicate PartialBundle(bundle: map<string, Payload>, connections: seq<DiskConnection>, id: string, fetched: Option<Payload>) {
    && (forall i :: 0 <= i < |connections| ==>
          var p := PayloadFor(connections[i], id, fetched);
          if p.Some? then connections[i].id in bundle && bundle[connections[i].id] == p.value
          else connections[i].id !in bundle)
    && (forall x :: x in bundle ==> exists i :: 0 <= i < |connections| && connections[i].id == x)
  }

  ghost predicate PartiallyMigrated(cfg: DiskConfig, next: DiskConfig, id: string, fetched: Option<Payload>, key: Key) {
    && next.version == Some(CONFIG_VERSION) && next.active == cfg.active
    && next.connections == seq(|cfg.connections|, i requires 0 <= i < |cfg.connections| => Stripped(cfg.connections[i], id))
    && next.secrets.Some? && next.secrets.value.key == key && next.secrets.value.version == SECRET_BUNDLE_VERSION
    && PartialBundle(next.secrets.value.credentials, cfg.connections, id, fetched)
  }

  /** Moving some per-connection entries into the bundle keeps every connection's credential. */
  lemma PartialMigrationMeans(cfg: DiskConfig, next: DiskConfig, id: string, fetched: Option<Payload>, key: Key, keyring: Keyring)
    requires DiskFormat(cfg) == Some(PerConnection)
    requires PartiallyMigrated(cfg, next, id, fetched, key) && MasterOf(keyring) == Some(key)
    requires NoPlaintext(next.connections)
    requires forall i :: 0 <= i < |cfg.connections| && cfg.connections[i].id == id && cfg.connections[i].legacy.None? ==>
               fetched.Some? && fetched == KeyringPayload(cfg.connections[i].credentialRef, keyring)
    ensures View(next, keyring) == View(cfg, keyring)
  {
    forall i | 0 <= i < |cfg.connections|
      ensures View(next, keyring)[i] == View(cfg, keyring)[i]
    {
      assert next.connections[i].legacyEnv == map[];
      assert next.connections[i] == Stripped(cfg.connections[i], id);
    }
  }

  /** Moving one more entry of an encrypted config into its bundle. */
  ghost predicate EntryAdded(cfg: DiskConfig, next: DiskConfig, at: nat, payload: Payload, bundle: map<string, Payload>, key: Key)
    requires at < |cfg.connections|
  {
    && next.version == Some(CONFIG_VERSION) && next.active == cfg.active
    && next.connections == cfg.connections[at := cfg.connections[at].(credentialRef := None)]
    && next.secrets == Some(Sealed(key, SECRET_BUNDLE_VERSION, bundle[cfg.connections[at].id := payload]))
  }

  lemma EntryAddedMeans(cfg: DiskConfig, next: DiskConfig, at: nat, payload: Payload, key: Key, keyring: Keyring)
    requires DiskFormat(cfg) == Some(Encrypted) && at < |cfg.connections| && DistinctIds(cfg.connections)
    requires cfg.connections[at].id !in Opened(cfg, keyring)
    requires EntryAdded(cfg, next, at, payload, Opened(cfg, keyring), key) && MasterOf(keyring) == Some(key)
    requires KeyringPayload(cfg.connections[at].credentialRef, keyring) == Some(payload)
    ensures View(next, keyring) == View(cfg, keyring)
  {
    forall i | 0 <= i < |cfg.connections|
      ensures View(next, keyring)[i] == View(cfg, keyring)[i]
    {
      assert i != at ==> next.connections[i] == cfg.connections[i] && cfg.connections[i].id != cfg.connections[at].id;
    }
  }

  // ----- deleting the entries that moved out -----

  /** The connection's credential is in the keyring, under one of the references. */
  predicate Needs(c: DiskConnection, cfg: DiskConfig, keyring: Keyring, gone: set<string>) {
    c.id !in Opened(cfg, keyring) && KeyringPayload(c.credentialRef, keyring).Some? && c.credentialRef.value in gone
  }

  predicate NeedsNone(cfg: DiskConfig, keyring: Keyring, gone: set<string>) {
    forall i :: 0 <= i < |cfg.connections| ==> !Needs(cfg.connections[i], cfg, keyring, gone)
  }

  /** Deleting references costs an encrypted config nothing exactly when no connection still needs one of them. */
  lemma DeletingRefsHarmlessIff(cfg: DiskConfig, keyring: Keyring, gone: set<string>)
    requires MASTER_KEY_REFERENCE !in gone && DiskFormat(cfg) == Some(Encrypted)
    ensures View(cfg, keyring - gone) == View(cfg, keyring) <==> NeedsNone(cfg, keyring, gone)
    ensures MasterOf(keyring - gone) == MasterOf(keyring)
  {
    var kr' := keyring - gone;
    assert MasterOf(kr') == MasterOf(keyring);
    forall i | 0 <= i < |cfg.connections|
      ensures CredentialOf(cfg.connections[i], cfg, kr') == CredentialOf(cfg.connections[i], cfg, keyring)
              <==> !Needs(cfg.connections[i], cfg, keyring, gone)
    {
      assert Opened(cfg, kr') == Opened(cfg, keyring);
    }
    if i :| 0 <= i < |cfg.connections| && Needs(cfg.connections[i], cfg, keyring, gone) {
      assert View(cfg, kr')[i] != View(cfg, keyring)[i];
    }
  }

  /** What is not needed with other entries around is not needed without them. */
  lemma NeedsNoneStays(cfg: DiskConfig, keyring: Keyring, gone: set<string>, first: set<string>)
    requires MASTER_KEY_REFERENCE !in first && NeedsNone(cfg, keyring, gone)
    ensures NeedsNone(cfg, keyring - first, gone)
  {
    assert MasterOf(keyring - first) == MasterOf(keyring);
    forall i | 0 <= i < |cfg.connections| ensures !Needs(cfg.connections[i], cfg, keyring - first, gone) {
      assert !Needs(cfg.connections[i], cfg, keyring, gone);
    }
  }

  function TakenRefs(connections: seq<DiskConnection>, id: string): set<string> {
    set i | 0 <= i < |connections| && Taken(connections[i], id) && connections[i].credentialRef.Some? :: connections[i].credentialRef.value
  }

  /** The keyring entries that loading one connection moves out and deletes; a full load is not meant here. */
  function MovedRefs(cfg: DiskConfig, id: string, keyring: Keyring): set<string> {
    match DiskFormat(cfg)
    case Some(PerConnection) => TakenRefs(cfg.connections, id)
    case Some(Encrypted) =>
      if id in Opened(cfg, keyring) then {}
      else set c <- cfg.connections | c.id == id && c.credentialRef.Some? :: c.credentialRef.value
    case _ => {}
  }

  /** The connection's credential stays in the keyring when connection `id` is loaded. */
  predicate LeftBehind(c: DiskConnection, cfg: DiskConfig, id: string, keyring: Keyring) {
    (if DiskFormat(cfg) == Some(PerConnection) then !Taken(c, id) else c.id != id && c.id !in Opened(cfg, keyring)) &&
    KeyringPayload(c.credentialRef, keyring).Some?
  }

  /** Seen on the file and the keyring before the call: nothing left behind refers to an entry that is deleted. */
  predicate Separate(cfg: DiskConfig, id: string, keyring: Keyring) {
    forall i :: 0 <= i < |cfg.connections| && LeftBehind(cfg.connections[i], cfg, id, keyring) ==>
      cfg.connections[i].credentialRef.value !in MovedRefs(cfg, id, keyring)
  }

  /** The master key is no part of that, as long as it opens the same bundle. */
  lemma SeparateFrame(cfg: DiskConfig, id: string, kr: Keyring, kr': Keyring)
    requires SameEntries(kr, kr') && (DiskFormat(cfg) == Some(PerConnection) || Opened(cfg, kr) == Opened(cfg, kr'))
    ensures Separate(cfg, id, kr) == Separate(cfg, id, kr')
  {
    forall i | 0 <= i < |cfg.connections|
      ensures KeyringPayload(cfg.connections[i].credentialRef, kr) == KeyringPayload(cfg.connections[i].credentialRef, kr')
    {
    }
  }

  lemma PartialNeedsNone(cfg: DiskConfig, next: DiskConfig, id: string, fetched: Option<Payload>, key: Key, keyring: Keyring)
    requires DiskFormat(cfg) == Some(PerConnection)
    requires PartiallyMigrated(cfg, next, id, fetched, key) && MasterOf(keyring) == Some(key)
    ensures NeedsNone(next, keyring, MovedRefs(cfg, id, keyring)) <==> Separate(cfg, id, keyring)
  {
    forall i | 0 <= i < |cfg.connections|
      ensures Needs(next.connections[i], next, keyring, MovedRefs(cfg, id, keyring)) <==>
              LeftBehind(cfg.connections[i], cfg, id, keyring) &&
              cfg.connections[i].credentialRef.value in MovedRefs(cfg, id, keyring)
    {
      assert next.connections[i] == Stripped(cfg.connections[i], id);
    }
  }

  /**
   Migrating one entry of a per-connection file and deleting what moved out keeps every credential
   exactly when the file and the keyring were separate in that sense before.
   */
  lemma OneEntryHarmlessIff(cfg: DiskConfig, next: DiskConfig, id: string, fetched: Option<Payload>, key: Key, keyring: Keyring)
    requires DiskFormat(cfg) == Some(PerConnection)
    requires PartiallyMigrated(cfg, next, id, fetched, key) && MasterOf(keyring) == Some(key)
    requires NoPlaintext(next.connections) && MASTER_KEY_REFERENCE !in TakenRefs(cfg.connections, id)
    requires forall i :: 0 <= i < |cfg.connections| && cfg.connections[i].id == id && cfg.connections[i].legacy.None? ==>
               fetched.Some? && fetched == KeyringPayload(cfg.connections[i].credentialRef, keyring)
    ensures View(next, keyring - TakenRefs(cfg.connections, id)) == View(cfg, keyring) <==>
            forall i :: 0 <= i < |cfg.connections| && !Taken(cfg.connections[i], id) &&
                        KeyringPayload(cfg.connections[i].credentialRef, keyring).Some? ==>
              cfg.connections[i].credentialRef.value !in TakenRefs(cfg.connections, id)
  {
    PartialMigrationMeans(cfg, next, id, fetched, key, keyring);
    PartialNeedsNone(cfg, next, id, fetched, key, keyring);
    DeletingRefsHarmlessIff(next, keyring, TakenRefs(cfg.connections, id));
    assert Separate(cfg, id, keyring) <==>
           forall i :: 0 <= i < |cfg.connections| && !Taken(cfg.connections[i], id) &&
                       KeyringPayload(cfg.connections[i].credentialRef, keyring).Some? ==>
             cfg.connections[i].credentialRef.value !in TakenRefs(cfg.connections, id);
  }

  lemma EntryNeedsNone(cfg: DiskConfig, next: DiskConfig, at: nat, payload: Payload, key: Key, keyring: Keyring)
    requires DiskFormat(cfg) == Some(Encrypted) && at < |cfg.connections| && DistinctIds(cfg.connections)
    requires cfg.connections[at].id !in Opened(cfg, keyring) && cfg.connections[at].credentialRef.Some?
    requires EntryAdded(cfg, next, at, payload, Opened(cfg, keyring), key) && MasterOf(keyring) == Some(key)
    ensures MovedRefs(cfg, cfg.connections[at].id, keyring) == {cfg.connections[at].credentialRef.value}
    ensures NeedsNone(next, keyring, {cfg.connections[at].credentialRef.value}) <==>
            Separate(cfg, cfg.connections[at].id, keyring)
  {
    var id, gone := cfg.connections[at].id, {cfg.connections[at].credentialRef.value};
    assert MovedRefs(cfg, id, keyring) == gone by {
      assert cfg.connections[at] in cfg.connections;
    }
    forall i | 0 <= i < |cfg.connections|
      ensures Needs(next.connections[i], next, keyring, gone) <==>
              LeftBehind(cfg.connections[i], cfg, id, keyring) && cfg.connections[i].credentialRef.value in gone
    {
      assert i != at ==> next.connections[i] == cfg.connections[i] && cfg.connections[i].id != id;
    }
  }

  /** The same for one more entry of an encrypted file. */
  lemma OneMoreHarmlessIff(cfg: DiskConfig, next: DiskConfig, at: nat, payload: Payload, key: Key, keyring: Keyring)
    requires DiskFormat(cfg) == Some(Encrypted) && at < |cfg.connections| && DistinctIds(cfg.connections)
    requires cfg.connections[at].id !in Opened(cfg, keyring)
    requires EntryAdded(cfg, next, at, payload, Opened(cfg, keyring), key) && MasterOf(keyring) == Some(key)
    requires KeyringPayload(cfg.connections[at].credentialRef, keyring) == Some(payload)
    ensures View(next, keyring - {cfg.connections[at].credentialRef.value}) == View(cfg, keyring) <==>
            forall i :: 0 <= i < |cfg.connections| && i != at && cfg.connections[i].id !in Opened(cfg, keyring) &&
                        KeyringPayload(cfg.connections[i].credentialRef, keyring).Some? ==>
              cfg.connections[i].credentialRef != cfg.connections[at].credentialRef
  {
    var id, gone := cfg.connections[at].id, {cfg.connections[at].credentialRef.value};
    MasterKeyIsNoReference();
    EntryAddedMeans(cfg, next, at, payload, key, keyring);
    EntryNeedsNone(cfg, next, at, payload, key, keyring);
    DeletingRefsHarmlessIff(next, keyring, gone);
    assert forall i :: 0 <= i < |cfg.connections| ==> (cfg.connections[i].id == id <==> i == at);
    assert Separate(cfg, id, keyring) <==>
           forall i :: 0 <= i < |cfg.connections| && i != at && cfg.connections[i].id !in Opened(cfg, keyring) &&
                       KeyringPayload(cfg.connections[i].credentialRef, keyring).Some? ==>
             cfg.connections[i].credentialRef != cfg.connections[at].credentialRef;
  }

  /** Where no two connections share a reference nothing can go wrong. */
  lemma DistinctRefsAreSeparate(cfg: DiskConfig, id: string, keyring: Keyring)
    requires DistinctRefs(cfg.connections)
    ensures Separate(cfg, id, keyring)
  {
  }

  /**
   Two connections sharing a reference: migrating the first and deleting the reference, as
   migrate_one_per_connection_entry does, leaves the second without its credential.
   */
  lemma SharedReferenceLosesCredential(p: Payload, key: Key, meta: Metadata) returns (cfg: DiskConfig, next: DiskConfig, keyring: Keyring)
    requires p.version == CREDENTIAL_PAYLOAD_VERSION
    ensures !DistinctRefs(cfg.connections) && DistinctIds(cfg.connections) && DiskFormat(cfg) == Some(PerConnection)
    ensures PartiallyMigrated(cfg, next, "a", Some(p), key) && NoPlaintext(next.connections) && MasterOf(keyring) == Some(key)
    ensures View(next, keyring) == View(cfg, keyring)
    ensures View(next, keyring - {"connection/a"}) != View(next, keyring)
  {
    var a := DiskConnection("a", meta, Some("connection/a"), None, map[]);
    var b := DiskConnection("b", meta, Some("connection/a"), None, map[]);
    cfg := DiskConfig(Some(PER_CONNECTION_CONFIG_VERSION), [a, b], None, None);
    next := DiskConfig(Some(CONFIG_VERSION), [a.(credentialRef := None), b], None, Some(Sealed(key, SECRET_BUNDLE_VERSION, map["a" := p])));
    keyring := map["connection/a" := Credential(p), MASTER_KEY_REFERENCE := MasterKey(key)];
    assert ValidReference("connection/a");
    MasterKeyIsNoReference();
    assert next.connections[0] == Stripped(a, "a") && next.connections[1] == Stripped(b, "a");
    assert PartialBundle(next.secrets.value.credentials, cfg.connections, "a", Some(p)) by {
      assert cfg.connections[0].id == "a";
    }
    PartialMigrationMeans(cfg, next, "a", Some(p), key, keyring);
    assert Needs(next.connections[1], next, keyring, {"connection/a"});
    assert !NeedsNone(next, keyring, {"connection/a"});
    DeletingRefsHarmlessIff(next, keyring, {"connection/a"});
  }
}
