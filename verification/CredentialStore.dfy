/** The operations of the store (store.rs): load, load one, save, activate, in any order. */
module CredentialStore {
  import opened Common
  import opened ConfigModel
  import opened ConfigCommit
  import opened KeyStore
  import opened CredentialReading
  import opened CredentialMigration
  import opened OneConnection

  lemma RecoveringIsFine(base: nat, w0: World, w: World, promise: Promise)
    requires Fine(base, w0, promise) && Recovering(w0, w)
    ensures Fine(base, w, promise)
  {
  }

  /** load_disk_config at the start of an operation. */
  method StartFromDisk(m: Machine, ghost base: nat, ghost promise: Promise) returns (r: Option<DiskConfig>)
    requires Fine(base, m.w, promise)
    modifies m
    ensures AllFine(base, old(m.history), m.history, promise) && Fine(base, m.w, promise)
    ensures m.w.keyring == old(m.w).keyring && m.w.cache == old(m.w).cache && old(m.w).faults <= m.w.faults
    ensures r.Some? ==> Steady(m.w.files) && Loaded(m.w.files) == r
    ensures r.Some? ==> r.value in Candidates(m.w.files) && r.value in Candidates(old(m.w).files)
    ensures m.w.faults == old(m.w).faults ==> r == Loaded(old(m.w).files)
  {
    ghost var w0, before := m.w, m.history;
    r := LoadDiskConfig(m);
    RecoveringIsFine(base, w0, m.w, promise);
    forall k | |before| <= k < |m.history| ensures Fine(base, m.history[k], promise) {
      RecoveringIsFine(base, w0, m.history[k], promise);
    }
  }

  ghost predicate EncryptedLoadable(disk: DiskConfig, w: World) {
    EncryptedReadable(disk, w) && (AllRefs(disk.connections) != {} ==> KeyAvailable(w, true))
  }

  ghost predicate LegacyLoadable(disk: DiskConfig, w: World) {
    LegacyReadable(disk.connections, w.keyring) && (disk.connections != [] ==> KeyAvailable(w, true))
  }

  /** The condition under which a full load succeeds when no call fails. */
  ghost predicate Loadable(w: World) {
    Loaded(w.files).Some? &&
    var disk := Loaded(w.files).value;
    match DiskFormat(disk)
    case None => false
    case Some(Encrypted) => EncryptedLoadable(disk, w)
    case Some(_) => LegacyLoadable(disk, w)
  }

  /** The runtime config is what the file meant, and what the store means now. */
  predicate Returns(config: RuntimeConfig, disk: DiskConfig, keyring: Keyring, now: World) {
    Meaning(RuntimeView(config), config.active) == MeaningOf(disk, keyring) &&
    Loaded(now.files).Some? && MeaningOf(Loaded(now.files).value, now.keyring) == MeaningOf(disk, keyring)
  }

  /** load, on an encrypted file: migrate only what still has a keyring entry of its own. */
  method LoadEncrypted(m: Machine, disk: DiskConfig, ghost base: nat, ghost promise: Promise) returns (r: Option<RuntimeConfig>)
    requires Steady(m.w.files) && Fine(base, m.w, promise) && Loaded(m.w.files) == Some(disk) && disk in Candidates(m.w.files)
    requires DiskFormat(disk) == Some(Encrypted)
    modifies m
    ensures AllFine(base, old(m.history), m.history, promise) && Fine(base, m.w, promise)
    ensures old(m.w).faults <= m.w.faults
    ensures r.Some? && m.w.faults <= base + 1 ==> Meaning(RuntimeView(r.value), r.value.active) in promise.meanings
    ensures r.Some? ==> EncryptedLoadable(disk, old(m.w)) && SameIds(r.value.connections, disk.connections)
    ensures r.None? ==> m.w.faults > old(m.w).faults || !EncryptedLoadable(disk, old(m.w))
    ensures r.Some? && m.w.faults == old(m.w).faults <= base + 1 ==> Returns(r.value, disk, old(m.w).keyring, m.w)
    ensures r.Some? && AllRefs(disk.connections) != {} ==> FullyMigrated(m.w.files)
    ensures r.Some? && m.w.faults == old(m.w).faults ==> m.w.keyring.Keys !! AllRefs(disk.connections)
  {
    var hydrated := HydrateEncrypted(m, disk, base, promise);
    if hydrated.None? {
      return None;
    }
    r := Some(hydrated.value.0);
    var ok := true;
    if hydrated.value.1 != {} {
      ok := MigrateConfig(m, hydrated.value.0, hydrated.value.1, base, promise);
    }
    if ok && !m.w.files.primary.Absent? {
      ok := CleanUp(m, base, promise);
    }
    return if ok then r else None;
  }

  /** load, on a plaintext or per-connection file: everything moves into the bundle. */
  method LoadLegacy(m: Machine, disk: DiskConfig, ghost base: nat, ghost promise: Promise) returns (r: Option<RuntimeConfig>)
    requires Steady(m.w.files) && Fine(base, m.w, promise) && Loaded(m.w.files) == Some(disk) && disk in Candidates(m.w.files)
    requires DiskFormat(disk).Some? && DiskFormat(disk) != Some(Encrypted)
    modifies m
    ensures AllFine(base, old(m.history), m.history, promise) && Fine(base, m.w, promise)
    ensures old(m.w).faults <= m.w.faults
    ensures r.Some? && m.w.faults <= base + 1 ==> Meaning(RuntimeView(r.value), r.value.active) in promise.meanings
    ensures r.Some? ==> LegacyLoadable(disk, old(m.w)) && SameIds(r.value.connections, disk.connections)
    ensures r.None? ==> m.w.faults > old(m.w).faults || !LegacyLoadable(disk, old(m.w))
    ensures r.Some? && m.w.faults == old(m.w).faults <= base + 1 ==> Returns(r.value, disk, old(m.w).keyring, m.w)
    ensures r.Some? ==> FullyMigrated(m.w.files)
    ensures r.Some? && m.w.faults == old(m.w).faults ==> m.w.keyring.Keys !! LegacyRefs(disk.connections)
  {
    var hydrated := HydrateLegacy(m, disk);
    if hydrated.None? {
      return None;
    }
    var ok := MigrateConfig(m, hydrated.value.0, hydrated.value.1, base, promise);
    return if ok then Some(hydrated.value.0) else None;
  }

  predicate NeedsMigration(disk: DiskConfig) {
    DiskFormat(disk) != Some(Encrypted) || AllRefs(disk.connections) != {}
  }

  /**
   load: hydrate everything and, if anything is still outside the bundle, migrate it. At every crash
   point, and after at most one failing operation, the files and the keyring still mean the same.
   */
  method Load(m: Machine, ghost base: nat, ghost promise: Promise) returns (r: Option<RuntimeConfig>)
    requires Fine(base, m.w, promise)
    modifies m
    ensures AllFine(base, old(m.history), m.history, promise) && Fine(base, m.w, promise)
    ensures r.Some? && m.w.faults <= base + 1 ==> Meaning(RuntimeView(r.value), r.value.active) in promise.meanings
    ensures old(m.w).faults <= m.w.faults
    ensures m.w.faults == old(m.w).faults ==> (r.Some? <==> Loadable(old(m.w)))
    ensures m.w.faults == old(m.w).faults <= base + 1 && r.Some? ==>
              Returns(r.value, Loaded(old(m.w).files).value, old(m.w).keyring, m.w)
    ensures m.w.faults == old(m.w).faults && r.Some? ==> SameIds(r.value.connections, Loaded(old(m.w).files).value.connections)
    ensures m.w.faults == old(m.w).faults && r.Some? ==> NeedsMigration(Loaded(old(m.w).files).value) ==> FullyMigrated(m.w.files)
  {
    var disk := StartFromDisk(m, base, promise);
    if disk.None? || DiskFormat(disk.value).None? {
      return None;
    }
    if m.w.faults == old(m.w).faults {
      LoadableReads(old(m.w), m.w);
    }
    if DiskFormat(disk.value) == Some(Encrypted) {
      r := LoadEncrypted(m, disk.value, base, promise);
    } else {
      r := LoadLegacy(m, disk.value, base, promise);
    }
  }

  /** Loadability reads the keyring, the cache and what a load starts from, and nothing else. */
  lemma LoadableReads(a: World, b: World)
    requires Loaded(a.files) == Loaded(b.files) && a.keyring == b.keyring && a.cache == b.cache
    ensures Loadable(a) == Loadable(b)
  {
    assert KeyAvailable(a, true) == KeyAvailable(b, true);
    if Loaded(a.files).Some? {
      assert Opens(Loaded(a.files).value, a) == Opens(Loaded(a.files).value, b);
    }
  }

  /** The condition under which one connection is loaded when no call fails. */
  ghost predicate ConnectionLoadable(id: string, w: World) {
    Loaded(w.files).Some? &&
    var disk := Loaded(w.files).value;
    match DiskFormat(disk)
    case None => false
    case Some(PerConnection) => EntryMigratable(disk, id, w)
    case Some(Encrypted) => OneReadable(disk, id, w)
    case Some(Plaintext) => Loadable(w) && id in Ids(disk.connections)
  }

  lemma ConditionsRead(a: World, b: World, id: string)
    requires Loaded(a.files) == Loaded(b.files) && a.keyring == b.keyring && a.cache == b.cache
    ensures ConnectionLoadable(id, a) == ConnectionLoadable(id, b)
  {
    LoadableReads(a, b);
    assert KeyAvailable(a, true) == KeyAvailable(b, true);
    if Loaded(a.files).Some? {
      var disk := Loaded(a.files).value;
      assert Opens(disk, a) == Opens(disk, b);
      assert forall at: nat :: at < |disk.connections| ==> Encryptable(disk, at, a) == Encryptable(disk, at, b);
    }
  }

  /** Whichever config a load could come back with is separate. */
  predicate AllSeparate(w: World, id: string) {
    forall cfg :: cfg in Candidates(w.files) ==> Separate(cfg, id, w.keyring)
  }

  /**
   load_connection: one credential, migrating no more than it has to. It answers what was promised in
   any case; every state it passes through keeps the promise if nothing left behind shares a
   reference with what moves out.
   */
  method LoadConnection(m: Machine, id: string, ghost base: nat, ghost promise: Promise) returns (r: Option<RuntimeConnection>)
    requires Fine(base, m.w, promise)
    modifies m
    ensures old(m.history) <= m.history
    ensures r.None? || (old(m.w).faults <= base + 1 ==> AllSeparate(old(m.w), id)) ==>
              AllFine(base, old(m.history), m.history, promise) && Fine(base, m.w, promise)
    ensures r.Some? && m.w.faults <= base + 1 ==> Answers(r.value, id, promise.meanings)
    ensures old(m.w).faults <= m.w.faults
    ensures m.w.faults == old(m.w).faults ==> (r.Some? <==> ConnectionLoadable(id, old(m.w)))
  {
    var disk := StartFromDisk(m, base, promise);
    if disk.None? {
      return None;
    }
    if m.w.faults == old(m.w).faults {
      ConditionsRead(old(m.w), m.w, id);
    }
    match DiskFormat(disk.value)
    case None => return None;
    case Some(PerConnection) => r := MigrateOneEntry(m, disk.value, id, base, promise);
    case Some(Encrypted) => r := LoadOneEncrypted(m, disk.value, id, base, promise);
    case Some(Plaintext) =>
      var config := Load(m, base, promise);
      if config.None? {
        return None;
      }
      r := SelectConnection(config.value, id);
      if m.w.faults == old(m.w).faults {
        assert SameIds(config.value.connections, disk.value.connections);
        assert r.Some? <==> id in Ids(disk.value.connections);
      }
      if r.Some? && m.w.faults <= base + 1 {
        var i :| 0 <= i < |config.value.connections| && config.value.connections[i] == r.value;
        assert RuntimeView(config.value)[i] == Meant(id, r.value.meta, Some(r.value.cred));
        assert Meaning(RuntimeView(config.value), config.value.active).connections == RuntimeView(config.value);
      }
  }

  method SelectConnection(config: RuntimeConfig, id: string) returns (r: Option<RuntimeConnection>)
    ensures r.Some? ==> r.value in config.connections && r.value.id == id
    ensures r.None? ==> forall c :: c in config.connections ==> c.id != id
  {
    for i := 0 to |config.connections|
      invariant forall j :: 0 <= j < i ==> config.connections[j].id != id
    {
      if config.connections[i].id == id {
        return Some(config.connections[i]);
      }
    }
    return None;
  }

  /** A promise that also allows one more meaning. */
  function Allowing(promise: Promise, meaning: Meaning): Promise {
    promise.(meanings := promise.meanings + {meaning})
  }

  /** The condition under which a save succeeds when no call fails: only an encrypted store is written to. */
  ghost predicate Savable(config: RuntimeConfig, w: World) {
    Loaded(w.files).Some? &&
    var disk := Loaded(w.files).value;
    DiskFormat(disk) == Some(Encrypted) && Writable(config, w, disk.connections == [] && disk.secrets.None?)
  }

  /** save: afterwards the store means `config`; if it reports an error, it means what it did. */
  method Save(m: Machine, config: RuntimeConfig, ghost base: nat, ghost promise: Promise) returns (ok: bool)
    requires Fine(base, m.w, promise)
    modifies m
    ensures var wider := Allowing(promise, Meaning(RuntimeView(config), config.active));
            AllFine(base, old(m.history), m.history, wider) && Fine(base, m.w, wider)
    ensures !ok ==> Fine(base, m.w, promise)
    ensures ok && m.w.faults <= base + 1 ==>
              forall cfg :: cfg in Candidates(m.w.files) ==>
                MeaningOf(cfg, m.w.keyring) == Meaning(RuntimeView(config), config.active)
    ensures m.w.faults == old(m.w).faults ==> (ok <==> Savable(config, old(m.w)))
  {
    ghost var wider := Allowing(promise, Meaning(RuntimeView(config), config.active));
    ghost var before := m.history;
    var existing := StartFromDisk(m, base, promise);
    WiderIsFine(base, before, m.history, promise, wider);
    if existing.None? || DiskFormat(existing.value) != Some(Encrypted) {
      return false;
    }
    var allowCreate := existing.value.connections == [] && existing.value.secrets.None?;
    ghost var started := m.history;
    ghost var written;
    ok, written := WriteAll(m, config, allowCreate, CurrentOnly, base, promise, wider);
    AllFineTwice(base, before, started, m.history, wider);
  }

  /** What each format demands of a connection before it is shown. */
  predicate Showable(c: DiskConnection, format: Format) {
    match format
    case Encrypted => c.legacy.None? && c.legacyEnv == map[]
    case Plaintext => c.legacy.Some?
    case PerConnection => true
  }

  predicate Public(disk: DiskConfig) {
    DiskFormat(disk).Some? && DistinctIds(disk.connections) &&
    forall i :: 0 <= i < |disk.connections| ==> Showable(disk.connections[i], DiskFormat(disk).value)
  }

  /** public_config_from_disk succeeds. */
  method PublicConfigExists(disk: DiskConfig) returns (ok: bool)
    ensures ok <==> disk.version in {None, Some(1), Some(2)} &&
                    (forall i :: 0 <= i < |disk.connections| ==>
                       var c := disk.connections[i];
                       c.id != "" && (disk.version == None ==> c.legacy.Some?) &&
                       (disk.version == Some(2) ==> c.legacy == None && c.legacyEnv == map[])) &&
                    (forall i, j :: 0 <= i < j < |disk.connections| ==> disk.connections[i].id != disk.connections[j].id)
    ensures ok <==> Public(disk)
  {
    if DiskFormat(disk).None? {
      return false;
    }
    ok := ValidateConnectionIds(disk.connections);
    if !ok {
      return;
    }
    for i := 0 to |disk.connections|
      invariant forall j :: 0 <= j < i ==> Showable(disk.connections[j], DiskFormat(disk).value)
    {
      var c := disk.connections[i];
      match DiskFormat(disk).value {
        case Encrypted =>
          if c.legacy.Some? || c.legacyEnv != map[] {
            return false;
          }
        case Plaintext =>
          if c.legacy.None? {
            return false;
          }
        case PerConnection =>
      }
    }
  }

  /** The meanings that differ from the promised ones at most in the active connection. */
  function WithActive(promise: Promise, id: Option<string>): Promise {
    promise.(meanings := promise.meanings + set meaning <- promise.meanings :: meaning.(active := id))
  }

  lemma ActiveKeepsCredentials(cfg: DiskConfig, id: Option<string>, keyring: Keyring, promise: Promise)
    requires Sound(cfg, keyring, promise)
    ensures Sound(cfg.(active := id), keyring, WithActive(promise, id))
  {
    var next := cfg.(active := id);
    forall i | 0 <= i < |cfg.connections|
      ensures CredentialOf(cfg.connections[i], next, keyring) == CredentialOf(cfg.connections[i], cfg, keyring)
    {
      assert Opened(next, keyring) == Opened(cfg, keyring);
    }
    assert View(next, keyring) == View(cfg, keyring);
    assert MeaningOf(next, keyring) == MeaningOf(cfg, keyring).(active := id);
  }

  /** The condition under which a connection can be made active when no call fails. */
  predicate Activatable(id: Option<string>, w: World) {
    Loaded(w.files).Some? && Public(Loaded(w.files).value) &&
    (id.Some? ==> id.value in Ids(Loaded(w.files).value.connections))
  }

  /** set_active: only the active connection changes, whatever the format; nothing if it reports an error. */
  method SetActive(m: Machine, id: Option<string>, ghost base: nat, ghost promise: Promise) returns (ok: bool)
    requires Fine(base, m.w, promise)
    modifies m
    ensures AllFine(base, old(m.history), m.history, WithActive(promise, id)) && Fine(base, m.w, WithActive(promise, id))
    ensures !ok ==> Fine(base, m.w, promise)
    ensures ok ==> Loaded(m.w.files).Some? && Loaded(m.w.files).value.active == id
    ensures m.w.faults == old(m.w).faults ==> (ok <==> Activatable(id, old(m.w)))
  {
    ghost var before := m.history;
    var disk := StartFromDisk(m, base, promise);
    WiderIsFine(base, before, m.history, promise, WithActive(promise, id));
    if disk.None? {
      return false;
    }
    ok := PublicConfigExists(disk.value);
    if !ok {
      return;
    }
    if id.Some? {
      var at := FindConnection(disk.value.connections, id.value);
      if at.None? {
        return false;
      }
    }
    ok := m.Read(); // the file is read again as raw JSON
    if !ok {
      return;
    }
    if m.w.faults <= base + 1 {
      ActiveKeepsCredentials(disk.value, id, m.w.keyring, promise);
    }
    ghost var started := m.history;
    ok := Commit(m, disk.value.(active := id), CurrentOnly, None, false, base, promise, WithActive(promise, id));
    AllFineTwice(base, before, started, m.history, WithActive(promise, id));
  }

  // ----- any operations, in any order, interrupted anywhere -----

  datatype Operation =
    | LoadAll
    | LoadOne(id: string)
    | SaveAll(config: RuntimeConfig)
    | Activate(active: Option<string>)

  ghost function Permitted(promise: Promise, op: Operation): Promise {
    match op
    case SaveAll(config) => Allowing(promise, Meaning(RuntimeView(config), config.active))
    case Activate(id) => WithActive(promise, id)
    case _ => promise
  }

  /** One operation: `ok` is what it reports. A reported error leaves the store meaning what it did. */
  method Operate(m: Machine, op: Operation, ghost promise: Promise) returns (ok: bool)
    requires Good(m.w, promise)
    modifies m
    ensures old(m.history) <= m.history && old(m.w).faults <= m.w.faults
    ensures op.LoadOne? && ok ==> AllSeparate(old(m.w), op.id) ==>
              AllFine(old(m.w).faults, old(m.history), m.history, promise) && Fine(old(m.w).faults, m.w, promise)
    ensures !op.LoadOne? || !ok ==>
              AllFine(old(m.w).faults, old(m.history), m.history, Permitted(promise, op)) &&
              Fine(old(m.w).faults, m.w, Permitted(promise, op))
    ensures !ok ==> Fine(old(m.w).faults, m.w, promise)
  {
    ghost var base := m.w.faults;
    match op
    case LoadAll =>
      var config := Load(m, base, promise);
      ok := config.Some?;
    case LoadOne(id) =>
      var connection := LoadConnection(m, id, base, promise);
      ok := connection.Some?;
    case SaveAll(config) => ok := Save(m, config, base, promise);
    case Activate(id) => ok := SetActive(m, id, base, promise);
  }

  /** How an operation went: it reported success or an error, or the process died before it could. */
  datatype Outcome = Reported(ok: bool) | Died

  /** What the store may mean after the operations: an operation that reported an error counts for nothing. */
  ghost function PermittedAfter(promise: Promise, ops: seq<Operation>, outcomes: seq<Outcome>): Promise
    requires |outcomes| <= |ops|
  {
    if |outcomes| == 0 then promise
    else
      var n := |outcomes| - 1;
      var before := PermittedAfter(promise, ops, outcomes[..n]);
      if outcomes[n] == Reported(false) then before else Permitted(before, ops[n])
  }

  lemma {:induction false} LoadsPermitNothing(promise: Promise, ops: seq<Operation>, outcomes: seq<Outcome>)
    requires |outcomes| <= |ops|
    requires forall i :: 0 <= i < |outcomes| && outcomes[i] != Reported(false) ==> ops[i].LoadAll? || ops[i].LoadOne?
    ensures PermittedAfter(promise, ops, outcomes) == promise
  {
    if |outcomes| > 0 {
      var n := |outcomes| - 1;
      forall i | 0 <= i < n && outcomes[..n][i] != Reported(false) ensures ops[i].LoadAll? || ops[i].LoadOne? {
        assert outcomes[i] != Reported(false);
      }
      LoadsPermitNothing(promise, ops, outcomes[..n]);
    }
  }

  lemma {:induction false} StaysDistinct(promise: Promise, ops: seq<Operation>, outcomes: seq<Outcome>)
    requires |outcomes| <= |ops|
    ensures PermittedAfter(promise, ops, outcomes).distinctRefs == promise.distinctRefs
  {
    if |outcomes| > 0 {
      StaysDistinct(promise, ops, outcomes[..|outcomes| - 1]);
    }
  }

  lemma DistinctIsSeparate(w: World, id: string, promise: Promise)
    requires Good(w, promise) && promise.distinctRefs
    ensures AllSeparate(w, id)
  {
    forall cfg | cfg in Candidates(w.files) ensures Separate(cfg, id, w.keyring) {
      assert Sound(cfg, w.keyring, promise);
      DistinctRefsAreSeparate(cfg, id, w.keyring);
    }
  }

  lemma PermittedOnce(promise: Promise, ops: seq<Operation>, outcomes: seq<Outcome>, outcome: Outcome)
    requires |outcomes| < |ops|
    ensures PermittedAfter(promise, ops, outcomes + [outcome]) ==
            AfterOne(PermittedAfter(promise, ops, outcomes), ops[|outcomes|], outcome)
  {
    assert (outcomes + [outcome])[..|outcomes|] == outcomes;
  }

  ghost function AfterOne(promise: Promise, op: Operation, outcome: Outcome): Promise {
    if outcome == Reported(false) then promise else Permitted(promise, op)
  }

  /** One operation, finished or cut short after any of its durable steps, and how many of its calls failed. */
  method OperateOrDie(m: Machine, op: Operation, ghost promise: Promise) returns (outcome: Outcome, failed: int)
    requires Good(m.w, promise) && (op.LoadOne? ==> AllSeparate(m.w, op.id))
    modifies m
    ensures failed == m.w.faults - old(m.w).faults
    ensures failed <= 1 ==> Good(m.w, AfterOne(promise, op, outcome))
  {
    var base, before := m.w.faults, m.history;
    var ok := Operate(m, op, promise);
    outcome := Reported(ok);
    var died: bool, k: nat := *, *;
    if died && |before| <= k < |m.history| {
      m.w := m.history[k].(cache := None);
      outcome := Died;
    }
    failed := m.w.faults - base;
  }

  function Sum(s: seq<int>): int {
    if |s| == 0 then 0 else Sum(s[..|s| - 1]) + s[|s| - 1]
  }

  /**
   Any operations in any order, each with at most one failing call, each either finishing or cut
   short by a crash after any of its durable steps (which also empties the key cache): the store
   stays coherent and means what the operations that were not refused made of it. `single` is false
   if some operation had more than one failing call, `separate` if a connection was loaded while one
   left behind shared its reference; then nothing is claimed. Without shared references that never
   happens. `failing` counts the failing calls of each operation.
   */
  method RunAny(m: Machine, ops: seq<Operation>, ghost promise: Promise)
    returns (single: bool, separate: bool, outcomes: seq<Outcome>, failing: seq<int>)
    requires Good(m.w, promise)
    modifies m
    ensures |outcomes| <= |ops| && (single && separate ==> |outcomes| == |ops|)
    ensures single && separate ==> Good(m.w, PermittedAfter(promise, ops, outcomes))
    ensures promise.distinctRefs ==> separate
    ensures single <==> forall i :: 0 <= i < |failing| ==> failing[i] <= 1
    ensures |failing| == |outcomes| && old(m.w).faults + Sum(failing) == m.w.faults
    ensures !separate ==> |outcomes| < |ops| && ops[|outcomes|].LoadOne? && !AllSeparate(m.w, ops[|outcomes|].id)
  {
    single, separate, outcomes, failing := true, true, [], [];
    for i := 0 to |ops|
      invariant single && separate && |outcomes| == i
      invariant Good(m.w, PermittedAfter(promise, ops, outcomes))
      invariant |failing| == |outcomes| && old(m.w).faults + Sum(failing) == m.w.faults
      invariant forall i :: 0 <= i < |failing| ==> failing[i] <= 1
    {
      ghost var kept := PermittedAfter(promise, ops, outcomes);
      StaysDistinct(promise, ops, outcomes);
      if ops[i].LoadOne? {
        if kept.distinctRefs {
          DistinctIsSeparate(m.w, ops[i].id, kept);
        }
        if !AllSeparate(m.w, ops[i].id) {
          return true, false, outcomes, failing;
        }
      }
      var outcome, failed := OperateOrDie(m, ops[i], kept);
      PermittedOnce(promise, ops, outcomes, outcome);
      outcomes := outcomes + [outcome];
      failing := failing + [failed];
      assert failing[..i] + [failing[i]] == failing;
      if failed > 1 {
        return false, true, outcomes, failing;
      }
    }
  }
}
