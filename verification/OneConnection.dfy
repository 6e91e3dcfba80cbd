/** Loading a single connection (store.rs), migrating no more than that needs. */
module OneConnection {
  import opened Common
  import opened ConfigModel
  import opened ConfigCommit
  import opened KeyStore
  import opened CredentialReading
  import opened CredentialMigration

  /** `c` is what the config said about connection `id`. */
  ghost predicate Answers(c: RuntimeConnection, id: string, meanings: set<Meaning>) {
    exists meaning :: meaning in meanings && c.id == id && Meant(id, c.meta, Some(c.cred)) in meaning.connections
  }

  method FindConnection(connections: seq<DiskConnection>, id: string) returns (at: Option<nat>)
    ensures at.Some? ==> at.value < |connections| && connections[at.value].id == id
    ensures at.None? ==> forall i :: 0 <= i < |connections| ==> connections[i].id != id
  {
    for i := 0 to |connections|
      invariant forall j :: 0 <= j < i ==> connections[j].id != id
    {
      if connections[i].id == id {
        return Some(i);
      }
    }
    return None;
  }

  lemma AnswerFromView(disk: DiskConfig, keyring: Keyring, promise: Promise, at: nat, c: RuntimeConnection)
    requires Sound(disk, keyring, promise) && at < |disk.connections|
    requires c.id == disk.connections[at].id && c.meta == disk.connections[at].meta
    requires CredentialOf(disk.connections[at], disk, keyring) == Some(c.cred)
    ensures Answers(c, c.id, promise.meanings)
  {
    assert View(disk, keyring)[at] == Meant(c.id, c.meta, Some(c.cred));
    assert MeaningOf(disk, keyring).connections == View(disk, keyring);
  }

  /** The condition under which a connection still in the keyring is moved into the bundle. */
  ghost predicate Encryptable(disk: DiskConfig, at: nat, w: World)
    requires at < |disk.connections|
  {
    var c := disk.connections[at];
    KeyringPayload(c.credentialRef, w.keyring).Some? && (disk.secrets.None? ==> KeyAvailable(w, true)) &&
    CanPersist(disk.connections[at := c.(credentialRef := None)])
  }

  /** The condition under which one connection of an encrypted file is loaded when no call fails. */
  ghost predicate OneReadable(disk: DiskConfig, id: string, w: World) {
    DistinctIds(disk.connections) && NoPlaintext(disk.connections) && Opens(disk, w) &&
    BundleOf(disk).Keys <= Ids(disk.connections) &&
    exists at: nat :: at < |disk.connections| && disk.connections[at].id == id &&
      if id in BundleOf(disk) then BundleOf(disk)[id].version == CREDENTIAL_PAYLOAD_VERSION else Encryptable(disk, at, w)
  }

  /** load_one_encrypted_connection: from the bundle, else from the keyring and then into the bundle. */
  method LoadOneEncrypted(m: Machine, disk: DiskConfig, id: string, ghost base: nat, ghost promise: Promise)
    returns (r: Option<RuntimeConnection>)
    requires Steady(m.w.files) && Fine(base, m.w, promise) && Loaded(m.w.files) == Some(disk)
    requires DiskFormat(disk) == Some(Encrypted)
    modifies m
    ensures old(m.history) <= m.history
    ensures r.None? || (old(m.w).faults <= base + 1 ==> Separate(disk, id, old(m.w).keyring)) ==>
              AllFine(base, old(m.history), m.history, promise) && Fine(base, m.w, promise)
    ensures r.Some? && m.w.faults <= base + 1 ==> Answers(r.value, id, promise.meanings)
    ensures old(m.w).faults <= m.w.faults
    ensures r.Some? ==> OneReadable(disk, id, old(m.w))
    ensures r.None? ==> m.w.faults > old(m.w).faults || !OneReadable(disk, id, old(m.w))
  {
    var valid := ValidateConnectionIds(disk.connections);
    var at := FindConnection(disk.connections, id);
    if !valid || at.None? {
      return None;
    }
    if exists i :: 0 <= i < |disk.connections| &&
         (disk.connections[i].legacy.Some? || disk.connections[i].legacyEnv != map[]) {
      return None;
    }
    assert disk in Candidates(m.w.files);
    assert forall i :: 0 <= i < |disk.connections| && disk.connections[i].id == id ==> i == at.value;
    var unsealed := OpenBundle(m, disk, base, promise);
    if unsealed.None? || !(unsealed.value.0.Keys <= Ids(disk.connections)) {
      return None;
    }
    var payloads, existing := unsealed.value.0, unsealed.value.1;
    if id !in payloads {
      r := EncryptOneMore(m, disk, at.value, payloads, existing, base, promise);
      return;
    }
    if payloads[id].version != CREDENTIAL_PAYLOAD_VERSION {
      return None;
    }
    r := Some(RuntimeConnection(id, disk.connections[at.value].meta, Cred(payloads[id].connectionString, payloads[id].env)));
    if m.w.faults <= base + 1 {
      AnswerFromView(disk, m.w.keyring, promise, at.value, r.value);
    }
  }

  /** The second half: the credential is still in the keyring, and moves. */
  method EncryptOneMore(m: Machine, disk: DiskConfig, at: nat, payloads: map<string, Payload>, existing: Option<Key>,
                        ghost base: nat, ghost promise: Promise) returns (r: Option<RuntimeConnection>)
    requires Steady(m.w.files) && Fine(base, m.w, promise) && Loaded(m.w.files) == Some(disk) && disk in Candidates(m.w.files)
    requires DiskFormat(disk) == Some(Encrypted)
    requires at < |disk.connections| && DistinctIds(disk.connections) && disk.connections[at].id !in payloads
    requires existing.Some? <==> disk.secrets.Some?
    requires existing.Some? ==> m.w.cache == existing
    requires m.w.faults <= base + 1 ==> payloads == Opened(disk, m.w.keyring) && (existing.Some? ==> MasterOf(m.w.keyring) == existing)
    modifies m
    ensures old(m.history) <= m.history
    ensures r.None? || (old(m.w).faults <= base + 1 ==> Separate(disk, disk.connections[at].id, old(m.w).keyring)) ==>
              AllFine(base, old(m.history), m.history, promise) && Fine(base, m.w, promise)
    ensures r.Some? && m.w.faults <= base + 1 ==> Answers(r.value, disk.connections[at].id, promise.meanings)
    ensures old(m.w).faults <= m.w.faults
    ensures r.Some? ==> Encryptable(disk, at, old(m.w))
    ensures r.None? ==> m.w.faults > old(m.w).faults || !Encryptable(disk, at, old(m.w))
    ensures r.Some? ==> NowHolds(m.w.files, disk.connections[at := disk.connections[at].(credentialRef := None)])
    ensures r.Some? && m.w.faults == old(m.w).faults ==> disk.connections[at].credentialRef.value !in m.w.keyring
  {
    var c := disk.connections[at];
    if c.credentialRef.None? || !ValidReference(c.credentialRef.value) {
      return None;
    }
    var payload := FetchPayload(m, c.credentialRef.value);
    if payload.None? {
      return None;
    }
    r := Some(RuntimeConnection(c.id, c.meta, Cred(payload.value.connectionString, payload.value.env)));
    if m.w.faults <= base + 1 {
      AnswerFromView(disk, m.w.keyring, promise, at, r.value);
    }
    var key, created := existing, false;
    if existing.None? {
      var obtained := MasterKeyOf(m, true, base, promise);
      if obtained.None? {
        return None;
      }
      key, created := Some(obtained.value.0), obtained.value.1;
    }
    var connections := disk.connections[at := c.(credentialRef := None)];
    var bundle := payloads[c.id := payload.value];
    MasterKeyIsNoReference();
    if m.w.faults <= base + 1 {
      assert Sound(disk, m.w.keyring, promise);
      SeparateFrame(disk, c.id, old(m.w).keyring, m.w.keyring);
      AddedIsFine(disk, at, payload.value, key.value, m.w.keyring, promise);
    }
    var ok := PersistPartial(m, connections, disk.active, bundle, {c.credentialRef.value}, key.value, created,
                             CurrentOnly, base, promise);
    if !ok {
      return None;
    }
  }

  /** What is about to be written is sound, and needs nothing that goes if the file is separate. */
  lemma AddedIsFine(disk: DiskConfig, at: nat, payload: Payload, key: Key, keyring: Keyring, promise: Promise)
    requires Sound(disk, keyring, promise) && DiskFormat(disk) == Some(Encrypted) && MasterOf(keyring) == Some(key)
    requires at < |disk.connections| && DistinctIds(disk.connections) && disk.connections[at].id !in Opened(disk, keyring)
    requires KeyringPayload(disk.connections[at].credentialRef, keyring) == Some(payload)
    ensures var c := disk.connections[at];
            var next := PartialConfig(disk.connections[at := c.(credentialRef := None)], disk.active,
                                      Opened(disk, keyring)[c.id := payload], key);
            Sound(next, keyring, promise) &&
            (Separate(disk, c.id, keyring) ==> NeedsNone(next, keyring, {c.credentialRef.value}))
  {
    var c := disk.connections[at];
    var next := PartialConfig(disk.connections[at := c.(credentialRef := None)], disk.active,
                              Opened(disk, keyring)[c.id := payload], key);
    EntryAddedMeans(disk, next, at, payload, key, keyring);
    EntryNeedsNone(disk, next, at, payload, key, keyring);
  }

  datatype Strip = Strip(
    connections: seq<DiskConnection>, payloads: map<string, Payload>,
    migrated: set<string>, selected: Option<RuntimeConnection>)

  ghost predicate StripsTo(connections: seq<DiskConnection>, id: string, fetched: Option<Payload>, r: Strip) {
    && r.connections == seq(|connections|, i requires 0 <= i < |connections| => Stripped(connections[i], id))
    && PartialBundle(r.payloads, connections, id, fetched)
    && (forall x :: x in r.migrated ==>
          ValidReference(x) &&
          exists i :: 0 <= i < |connections| && Taken(connections[i], id) && connections[i].credentialRef == Some(x))
    && (r.selected.Some? ==> exists i :: 0 <= i < |connections| && Selects(connections[i], id, fetched, r.selected.value))
  }

  predicate Selects(c: DiskConnection, id: string, fetched: Option<Payload>, selected: RuntimeConnection) {
    && c.id == id && selected.id == id && selected.meta == c.meta
    && PayloadFor(c, id, fetched) == Some(Payload(CREDENTIAL_PAYLOAD_VERSION, selected.cred.connectionString, selected.cred.env))
  }

  /** The references that move out are well-formed and distinct. */
  ghost predicate TakenInOrder(connections: seq<DiskConnection>, id: string) {
    forall i :: 0 <= i < |connections| && Taken(connections[i], id) ==>
      RefInOrder(connections[i], TakenRefs(connections[..i], id))
  }

  lemma TakenRefsGrow(connections: seq<DiskConnection>, i: nat, id: string)
    requires i < |connections|
    ensures TakenRefs(connections[..i + 1], id) ==
              TakenRefs(connections[..i], id) +
              (if Taken(connections[i], id) && connections[i].credentialRef.Some? then {connections[i].credentialRef.value} else {})
  {
    assert connections[..i + 1] == connections[..i] + [connections[i]];
  }

  predicate FetchedFor(c: DiskConnection, id: string, fetched: Option<Payload>) {
    c.id == id && c.legacy.None? ==> fetched.Some? && fetched.value.version == CREDENTIAL_PAYLOAD_VERSION
  }

  lemma StripGrows(done: seq<DiskConnection>, c: DiskConnection, id: string, fetched: Option<Payload>, r: Strip, next: Strip)
    requires StripsTo(done, id, fetched, r) && FetchedFor(c, id, fetched)
    requires forall i :: 0 <= i < |done| ==> done[i].id != c.id
    requires next.connections == r.connections + [Stripped(c, id)]
    requires var p := PayloadFor(c, id, fetched);
             next.payloads == if p.Some? then r.payloads[c.id := p.value] else r.payloads
    requires next.migrated == r.migrated ||
             (Taken(c, id) && c.credentialRef.Some? && ValidReference(c.credentialRef.value) &&
              next.migrated == r.migrated + {c.credentialRef.value})
    requires next.selected == r.selected || (next.selected.Some? && Selects(c, id, fetched, next.selected.value))
    ensures StripsTo(done + [c], id, fetched, next)
  {
    var all := done + [c];
    assert PartialBundle(next.payloads, all, id, fetched) by {
      forall x | x in next.payloads ensures exists i :: 0 <= i < |all| && all[i].id == x {
        if x in r.payloads {
          var i :| 0 <= i < |done| && done[i].id == x;
          assert all[i].id == x;
        } else {
          assert all[|done|].id == x;
        }
      }
    }
    forall x | x in next.migrated
      ensures ValidReference(x) && exists i :: 0 <= i < |all| && Taken(all[i], id) && all[i].credentialRef == Some(x)
    {
      if x in r.migrated {
        var i :| 0 <= i < |done| && Taken(done[i], id) && done[i].credentialRef == Some(x);
        assert Taken(all[i], id);
      } else {
        assert Taken(all[|done|], id);
      }
    }
    if next.selected.Some? {
      if next.selected == r.selected {
        var i :| 0 <= i < |done| && Selects(done[i], id, fetched, next.selected.value);
        assert Selects(all[i], id, fetched, next.selected.value);
      } else {
        assert Selects(all[|done|], id, fetched, next.selected.value);
      }
    }
  }

  predicate StripsOne(c: DiskConnection, id: string, fetched: Option<Payload>, strip: Strip, next: Strip) {
    && next.connections == strip.connections + [Stripped(c, id)]
    && next.migrated == strip.migrated + (if Taken(c, id) && c.credentialRef.Some? then {c.credentialRef.value} else {})
    && (var p := PayloadFor(c, id, fetched);
        next.payloads == if p.Some? then strip.payloads[c.id := p.value] else strip.payloads)
    && (if c.id == id then next.selected.Some? && Selects(c, id, fetched, next.selected.value)
        else next.selected == strip.selected)
  }

  /** What the loop below knows after `i` connections. */
  ghost predicate StripsUpTo(connections: seq<DiskConnection>, i: nat, id: string, fetched: Option<Payload>, strip: Strip) {
    && i <= |connections| && StripsTo(connections[..i], id, fetched, strip)
    && strip.migrated == TakenRefs(connections[..i], id)
    && (strip.selected.Some? <==> id in Ids(connections[..i]))
    && forall j :: 0 <= j < i && Taken(connections[j], id) ==> RefInOrder(connections[j], TakenRefs(connections[..j], id))
  }

  lemma StripStep(connections: seq<DiskConnection>, i: nat, id: string, fetched: Option<Payload>, strip: Strip, next: Strip)
    requires DistinctIds(connections) && i < |connections| && FetchedFor(connections[i], id, fetched)
    requires StripsUpTo(connections, i, id, fetched, strip) && StripsOne(connections[i], id, fetched, strip, next)
    requires Taken(connections[i], id) ==> RefInOrder(connections[i], strip.migrated)
    ensures StripsUpTo(connections, i + 1, id, fetched, next)
  {
    var c := connections[i];
    TakenRefsGrow(connections, i, id);
    IdsGrow(connections, i);
    assert StripsTo(connections[..i + 1], id, fetched, next) by {
      StripGrows(connections[..i], c, id, fetched, strip, next);
      assert connections[..i + 1] == connections[..i] + [c];
    }
  }

  lemma StripStops(connections: seq<DiskConnection>, i: nat, id: string, fetched: Option<Payload>, strip: Strip)
    requires StripsUpTo(connections, i, id, fetched, strip) && i < |connections|
    requires Taken(connections[i], id) && !RefInOrder(connections[i], strip.migrated)
    ensures !TakenInOrder(connections, id)
  {
  }

  lemma StripStarts(connections: seq<DiskConnection>, id: string, fetched: Option<Payload>)
    ensures StripsUpTo(connections, 0, id, fetched, Strip([], map[], {}, None))
  {
  }

  lemma StripDone(connections: seq<DiskConnection>, id: string, fetched: Option<Payload>, strip: Strip)
    requires StripsUpTo(connections, |connections|, id, fetched, strip)
    ensures StripsTo(connections, id, fetched, strip) && TakenInOrder(connections, id)
    ensures strip.migrated == TakenRefs(connections, id) && (strip.selected.Some? <==> id in Ids(connections))
  {
    assert connections[..|connections|] == connections;
  }

  /** One connection of the loop below: it moves out if it is taken, and otherwise stays as it is. */
  method StripOne(c: DiskConnection, id: string, fetched: Option<Payload>, strip: Strip) returns (r: Option<Strip>)
    requires FetchedFor(c, id, fetched)
    ensures r.Some? <==> (Taken(c, id) ==> RefInOrder(c, strip.migrated))
    ensures r.Some? ==> StripsOne(c, id, fetched, strip, r.value)
  {
    var next := strip.(connections := strip.connections + [Stripped(c, id)]);
    var payload := PayloadFor(c, id, fetched);
    if payload.Some? {
      if c.credentialRef.Some? {
        if !ValidReference(c.credentialRef.value) || c.credentialRef.value in strip.migrated {
          return None;
        }
        next := next.(migrated := strip.migrated + {c.credentialRef.value});
      }
      if c.id == id {
        next := next.(selected := Some(RuntimeConnection(c.id, c.meta, Cred(payload.value.connectionString, payload.value.env))));
      }
      next := next.(payloads := strip.payloads[c.id := payload.value]);
    }
    return Some(next);
  }

  /** The loop of migrate_one_per_connection_entry: plaintext entries and the selected one move out. */
  method StripEntries(connections: seq<DiskConnection>, id: string, fetched: Option<Payload>) returns (r: Option<Strip>)
    requires DistinctIds(connections)
    requires forall i :: 0 <= i < |connections| ==> FetchedFor(connections[i], id, fetched)
    ensures r.Some? ==> StripsTo(connections, id, fetched, r.value)
    ensures r.Some? ==> (r.value.selected.Some? <==> id in Ids(connections))
    ensures r.Some? <==> TakenInOrder(connections, id)
    ensures r.Some? ==> r.value.migrated == TakenRefs(connections, id)
  {
    var strip := Strip([], map[], {}, None);
    StripStarts(connections, id, fetched);
    for i := 0 to |connections|
      invariant StripsUpTo(connections, i, id, fetched, strip)
    {
      var next := StripOne(connections[i], id, fetched, strip);
      if next.None? {
        StripStops(connections, i, id, fetched, strip);
        return None;
      }
      StripStep(connections, i, id, fetched, strip, next.value);
      strip := next.value;
    }
    StripDone(connections, id, fetched, strip);
    return Some(strip);
  }

  predicate HasCredential(c: DiskConnection, keyring: Keyring) {
    c.legacy.Some? || KeyringPayload(c.credentialRef, keyring).Some?
  }

  /** The condition under which one entry is migrated and loaded when no call fails. */
  ghost predicate EntryMigratable(disk: DiskConfig, id: string, w: World) {
    DistinctIds(disk.connections) && id in Ids(disk.connections) &&
    (forall i :: 0 <= i < |disk.connections| && disk.connections[i].id == id ==> HasCredential(disk.connections[i], w.keyring)) &&
    TakenInOrder(disk.connections, id) && KeyAvailable(w, true) && CanPersist(StrippedAll(disk.connections, id))
  }

  function StrippedAll(connections: seq<DiskConnection>, id: string): seq<DiskConnection> {
    seq(|connections|, i requires 0 <= i < |connections| => Stripped(connections[i], id))
  }

  /** The keyring payload of the selected connection, unless it has its credential in the file. */
  method FetchTarget(m: Machine, c: DiskConnection) returns (ok: bool, fetched: Option<Payload>)
    modifies m
    ensures m.history == old(m.history) && m.w == old(m.w).(faults := m.w.faults) && old(m.w).faults <= m.w.faults
    ensures ok ==> m.w == old(m.w) && HasCredential(c, m.w.keyring) && FetchedFor(c, c.id, fetched)
    ensures ok && c.legacy.None? ==> fetched.Some? && fetched == KeyringPayload(c.credentialRef, m.w.keyring)
    ensures !ok ==> m.w.faults > old(m.w).faults || !HasCredential(c, m.w.keyring)
  {
    if c.legacy.Some? {
      return true, None;
    }
    if c.credentialRef.None? || !ValidReference(c.credentialRef.value) {
      return false, None;
    }
    fetched := FetchPayload(m, c.credentialRef.value);
    ok := fetched.Some?;
  }

  /** With distinct ids only the connection found matters. */
  lemma EntryMigratableAt(disk: DiskConfig, id: string, at: nat, w: World)
    requires DistinctIds(disk.connections) && at < |disk.connections| && disk.connections[at].id == id
    ensures EntryMigratable(disk, id, w) <==>
              HasCredential(disk.connections[at], w.keyring) && TakenInOrder(disk.connections, id) &&
              KeyAvailable(w, true) && CanPersist(StrippedAll(disk.connections, id))
    ensures forall i :: 0 <= i < |disk.connections| && disk.connections[i].id == id ==> i == at
  {
  }

  /** Both files hold an encrypted config of these connections. */
  predicate NowHolds(f: Files, connections: seq<DiskConnection>) {
    f.primary.Holds? && f.primary == f.backup && f.primary.config.version == Some(CONFIG_VERSION) &&
    f.primary.config.connections == connections
  }

  /** migrate_one_per_connection_entry: one keyring entry, and every plaintext one, into the bundle. */
  method MigrateOneEntry(m: Machine, disk: DiskConfig, id: string, ghost base: nat, ghost promise: Promise)
    returns (r: Option<RuntimeConnection>)
    requires Steady(m.w.files) && Fine(base, m.w, promise) && Loaded(m.w.files) == Some(disk)
    requires DiskFormat(disk) == Some(PerConnection)
    modifies m
    ensures old(m.history) <= m.history
    ensures r.None? || (old(m.w).faults <= base + 1 ==> Separate(disk, id, old(m.w).keyring)) ==>
              AllFine(base, old(m.history), m.history, promise) && Fine(base, m.w, promise)
    ensures r.Some? && m.w.faults <= base + 1 ==> Answers(r.value, id, promise.meanings)
    ensures old(m.w).faults <= m.w.faults
    ensures r.Some? ==> EntryMigratable(disk, id, old(m.w))
    ensures r.None? ==> m.w.faults > old(m.w).faults || !EntryMigratable(disk, id, old(m.w))
    ensures r.Some? ==> NowHolds(m.w.files, StrippedAll(disk.connections, id))
    ensures r.Some? && m.w.faults == old(m.w).faults ==> m.w.keyring.Keys !! TakenRefs(disk.connections, id)
  {
    var valid := ValidateConnectionIds(disk.connections);
    var at := FindConnection(disk.connections, id);
    if !valid || at.None? {
      return None;
    }
    EntryMigratableAt(disk, id, at.value, m.w);
    var found, fetched := FetchTarget(m, disk.connections[at.value]);
    if !found {
      return None;
    }
    var strip := StripEntries(disk.connections, id, fetched);
    if strip.None? || strip.value.selected.None? {
      return None;
    }
    assert strip.value.connections == StrippedAll(disk.connections, id);
    var ok := PersistStripped(m, disk, id, fetched, strip.value, base, promise);
    r := if ok then strip.value.selected else None;
  }

  /** The second half: seal what moves out and commit what stays. */
  method PersistStripped(m: Machine, disk: DiskConfig, id: string, fetched: Option<Payload>, strip: Strip,
                         ghost base: nat, ghost promise: Promise) returns (ok: bool)
    requires Steady(m.w.files) && Fine(base, m.w, promise) && Loaded(m.w.files) == Some(disk)
    requires DiskFormat(disk) == Some(PerConnection)
    requires StripsTo(disk.connections, id, fetched, strip) && strip.selected.Some?
    requires strip.migrated == TakenRefs(disk.connections, id)
    requires forall i :: 0 <= i < |disk.connections| ==> FetchedFor(disk.connections[i], id, fetched)
    requires forall i :: 0 <= i < |disk.connections| && disk.connections[i].id == id && disk.connections[i].legacy.None? ==>
               fetched == KeyringPayload(disk.connections[i].credentialRef, m.w.keyring)
    modifies m
    ensures old(m.history) <= m.history
    ensures !ok || (old(m.w).faults <= base + 1 ==> Separate(disk, id, old(m.w).keyring)) ==>
              AllFine(base, old(m.history), m.history, promise) && Fine(base, m.w, promise)
    ensures old(m.w).faults <= m.w.faults
    ensures ok && m.w.faults <= base + 1 ==> Answers(strip.selected.value, id, promise.meanings)
    ensures ok ==> KeyAvailable(old(m.w), true) && CanPersist(strip.connections)
    ensures !ok ==> m.w.faults > old(m.w).faults || !KeyAvailable(old(m.w), true) || !CanPersist(strip.connections)
    ensures ok ==> NowHolds(m.w.files, strip.connections)
    ensures ok && m.w.faults == old(m.w).faults ==> m.w.keyring.Keys !! strip.migrated
  {
    assert disk in Candidates(m.w.files);
    var key := MasterKeyOf(m, true, base, promise);
    if key.None? {
      return false;
    }
    MasterKeyIsNoReference();
    if m.w.faults <= base + 1 {
      StrippedIsFine(disk, id, fetched, strip, key.value.0, old(m.w).keyring, m.w.keyring, promise);
    }
    ok := PersistPartial(m, strip.connections, disk.active, strip.payloads, strip.migrated,
                         key.value.0, key.value.1, ReplaceLegacy, base, promise);
  }

  /** What is about to be written is sound, and needs nothing that goes if the file was separate before. */
  lemma StrippedIsFine(disk: DiskConfig, id: string, fetched: Option<Payload>, strip: Strip, key: Key,
                       before: Keyring, keyring: Keyring, promise: Promise)
    requires Sound(disk, keyring, promise) && DiskFormat(disk) == Some(PerConnection)
    requires SameEntries(before, keyring) && MasterOf(keyring) == Some(key)
    requires StripsTo(disk.connections, id, fetched, strip) && strip.selected.Some?
    requires strip.migrated == TakenRefs(disk.connections, id)
    requires forall i :: 0 <= i < |disk.connections| && disk.connections[i].id == id && disk.connections[i].legacy.None? ==>
               fetched.Some? && fetched == KeyringPayload(disk.connections[i].credentialRef, keyring)
    ensures var next := PartialConfig(strip.connections, disk.active, strip.payloads, key);
            && (NoPlaintext(strip.connections) ==> Sound(next, keyring, promise) && Answers(strip.selected.value, id, promise.meanings))
            && (Separate(disk, id, before) ==> NeedsNone(next, keyring, strip.migrated))
  {
    var next := PartialConfig(strip.connections, disk.active, strip.payloads, key);
    SeparateFrame(disk, id, before, keyring);
    PartialNeedsNone(disk, next, id, fetched, key, keyring);
    if NoPlaintext(strip.connections) {
      PartialStaysSound(disk, next, id, fetched, strip, key, keyring, promise);
    }
  }

  lemma PartialStaysSound(disk: DiskConfig, next: DiskConfig, id: string, fetched: Option<Payload>, strip: Strip,
                          key: Key, keyring: Keyring, promise: Promise)
    requires Sound(disk, keyring, promise)
    requires DiskFormat(disk) == Some(PerConnection)
    requires next == PartialConfig(strip.connections, disk.active, strip.payloads, key) && MasterOf(keyring) == Some(key)
    requires StripsTo(disk.connections, id, fetched, strip) && strip.selected.Some? && NoPlaintext(strip.connections)
    requires forall i :: 0 <= i < |disk.connections| && disk.connections[i].id == id && disk.connections[i].legacy.None? ==>
               fetched.Some? && fetched == KeyringPayload(disk.connections[i].credentialRef, keyring)
    ensures Sound(next, keyring, promise)
    ensures Answers(strip.selected.value, id, promise.meanings)
  {
    PartialMigrationMeans(disk, next, id, fetched, key, keyring);
    var i :| 0 <= i < |disk.connections| && Selects(disk.connections[i], id, fetched, strip.selected.value);
    assert strip.connections[i] == Stripped(disk.connections[i], id);
    AnswerFromView(disk, keyring, promise, i, strip.selected.value);
  }
}
