/**
 Reading credentials (store.rs, the hydrate functions): the runtime config a file means, and exactly
 when it can be read.
 */
module CredentialReading {
  import opened Common
  import opened ConfigModel
  import opened ConfigCommit
  import opened KeyStore

  /** validate_connection_ids. */
  method ValidateConnectionIds(connections: seq<DiskConnection>) returns (ok: bool)
    ensures ok <==> (forall i :: 0 <= i < |connections| ==> connections[i].id != "") &&
                    (forall i, j :: 0 <= i < j < |connections| ==> connections[i].id != connections[j].id)
    ensures ok <==> DistinctIds(connections)
  {
    var seen: set<string> := {};
    for i := 0 to |connections|
      invariant seen == set j | 0 <= j < i :: connections[j].id
      invariant DistinctIds(connections[..i])
    {
      if connections[i].id == "" || connections[i].id in seen {
        assert connections[i] == connections[..i + 1][i];
        return false;
      }
      assert forall j :: 0 <= j < i ==> connections[j].id in seen;
      seen := seen + {connections[i].id};
    }
    assert connections[..|connections|] == connections;
    return true;
  }

  /** Only the fault count, and a key read on the way, can have changed. */
  ghost predicate OnlyRead(m0: World, before: seq<World>, w: World, after: seq<World>) {
    && after == before && m0.faults <= w.faults
    && w == m0.(faults := w.faults, cache := w.cache)
  }

  /** The keyring entries a file depends on for connections without a plaintext field. */
  function LegacyRefs(connections: seq<DiskConnection>): set<string> {
    set i | 0 <= i < |connections| && connections[i].legacy.None? && connections[i].credentialRef.Some? :: connections[i].credentialRef.value
  }

  /** Every connection has its credential in the file, or alone in its keyring entry. */
  ghost predicate LegacyEntries(connections: seq<DiskConnection>, keyring: Keyring) {
    forall i :: 0 <= i < |connections| ==> LegacyEntry(connections[i], LegacyRefs(connections[..i]), keyring)
  }

  predicate LegacyEntry(c: DiskConnection, others: set<string>, keyring: Keyring) {
    c.legacy.Some? || (KeyringPayload(c.credentialRef, keyring).Some? && c.credentialRef.value !in others)
  }

  ghost predicate LegacyReadable(connections: seq<DiskConnection>, keyring: Keyring) {
    DistinctIds(connections) && LegacyEntries(connections, keyring)
  }

  lemma LegacyRefsGrow(connections: seq<DiskConnection>, i: nat)
    requires i < |connections|
    ensures LegacyRefs(connections[..i + 1]) ==
              LegacyRefs(connections[..i]) +
              (if connections[i].legacy.None? && connections[i].credentialRef.Some? then {connections[i].credentialRef.value} else {})
  {
    assert connections[..i + 1] == connections[..i] + [connections[i]];
  }

  /** The runtime connections are those of the file, in order. */
  predicate SameIds(runtime: seq<RuntimeConnection>, connections: seq<DiskConnection>) {
    |runtime| == |connections| && forall i :: 0 <= i < |connections| ==> runtime[i].id == connections[i].id
  }

  /** The credential of one connection of a plaintext or per-connection file. */
  method HydrateOneLegacy(m: Machine, c: DiskConnection, oldReferences: set<string>) returns (r: Option<Cred>)
    modifies m
    ensures m.history == old(m.history) && m.w == old(m.w).(faults := m.w.faults) && old(m.w).faults <= m.w.faults
    ensures r.Some? ==> m.w == old(m.w) && LegacyEntry(c, oldReferences, m.w.keyring)
    ensures r.Some? && c.legacy.Some? ==> r.value == Cred(c.legacy.value, c.legacyEnv)
    ensures r.Some? && c.legacy == None ==>
              c.credentialRef.Some? && c.credentialRef.value in m.w.keyring && m.w.keyring[c.credentialRef.value].Credential? &&
              var p := m.w.keyring[c.credentialRef.value].payload;
              r.value == Cred(p.connectionString, if c.legacyEnv != map[] then c.legacyEnv else p.env)
    ensures r.Some? ==> forall disk: DiskConfig :: DiskFormat(disk).Some? && DiskFormat(disk) != Some(Encrypted) ==>
              CredentialOf(c, disk, m.w.keyring) == r
    ensures r.None? ==> m.w.faults > old(m.w).faults || !LegacyEntry(c, oldReferences, m.w.keyring)
  {
    if c.legacy.Some? {
      return Some(Cred(c.legacy.value, c.legacyEnv));
    }
    if c.credentialRef.None? {
      return None;
    }
    var reference := c.credentialRef.value;
    if !ValidReference(reference) || reference in oldReferences {
      return None;
    }
    var payload := FetchPayload(m, reference);
    if payload.None? {
      return None;
    }
    return Some(Cred(payload.value.connectionString, if c.legacyEnv != map[] then c.legacyEnv else payload.value.env));
  }

  /** hydrate_legacy_config: the runtime config of a plaintext or per-connection file. */
  method HydrateLegacy(m: Machine, disk: DiskConfig) returns (r: Option<(RuntimeConfig, set<string>)>)
    requires DiskFormat(disk).Some? && DiskFormat(disk) != Some(Encrypted)
    modifies m
    ensures OnlyRead(old(m.w), old(m.history), m.w, m.history) && m.w.cache == old(m.w).cache
    ensures r.Some? ==>
              && m.w == old(m.w)
              && RuntimeView(r.value.0) == View(disk, m.w.keyring) && r.value.0.active == disk.active
              && RuntimeIds(r.value.0.connections)
              && MASTER_KEY_REFERENCE !in r.value.1
    ensures r.Some? ==> LegacyReadable(disk.connections, m.w.keyring) && SameIds(r.value.0.connections, disk.connections)
    ensures r.Some? ==> r.value.1 == LegacyRefs(disk.connections)
    ensures r.None? ==> m.w.faults > old(m.w).faults || !LegacyReadable(disk.connections, m.w.keyring)
  {
    var valid := ValidateConnectionIds(disk.connections);
    if !valid {
      return None;
    }
    MasterKeyIsNoReference();
    var oldReferences: set<string> := {};
    var connections: seq<RuntimeConnection> := [];
    for i := 0 to |disk.connections|
      invariant OnlyRead(old(m.w), old(m.history), m.w, m.history) && m.w == old(m.w)
      invariant |connections| == i && MASTER_KEY_REFERENCE !in oldReferences
      invariant oldReferences == LegacyRefs(disk.connections[..i])
      invariant forall j :: 0 <= j < i ==> LegacyEntry(disk.connections[j], LegacyRefs(disk.connections[..j]), m.w.keyring)
      invariant forall j :: 0 <= j < i ==>
                  var c := disk.connections[j];
                  connections[j].id == c.id && connections[j].meta == c.meta &&
                  CredentialOf(c, disk, m.w.keyring) == Some(connections[j].cred)
    {
      var c := disk.connections[i];
      LegacyRefsGrow(disk.connections, i);
      var cred := HydrateOneLegacy(m, c, oldReferences);
      if cred.None? {
        return None;
      }
      if c.legacy.None? {
        oldReferences := oldReferences + {c.credentialRef.value};
      }
      connections := connections + [RuntimeConnection(c.id, c.meta, cred.value)];
    }
    assert disk.connections[..|disk.connections|] == disk.connections;
    return Some((RuntimeConfig(connections, disk.active), oldReferences));
  }

  predicate Resolves(c: DiskConnection, payloads: map<string, Payload>, keyring: Keyring) {
    if c.id in payloads then payloads[c.id].version == CREDENTIAL_PAYLOAD_VERSION
    else KeyringPayload(c.credentialRef, keyring).Some?
  }

  function BundleOf(disk: DiskConfig): map<string, Payload> {
    if disk.secrets.Some? then disk.secrets.value.credentials else map[]
  }

  predicate Opens(disk: DiskConfig, w: World) {
    disk.secrets.Some? ==>
      KeyFound(w) == Some(disk.secrets.value.key) && disk.secrets.value.version == SECRET_BUNDLE_VERSION
  }

  /** One connection of an encrypted file: its bundle entry, else its keyring entry. */
  method ResolveEncrypted(m: Machine, c: DiskConnection, payloads: map<string, Payload>) returns (r: Option<Payload>)
    requires c.credentialRef.Some? ==> ValidReference(c.credentialRef.value)
    modifies m
    ensures m.history == old(m.history) && m.w == old(m.w).(faults := m.w.faults) && old(m.w).faults <= m.w.faults
    ensures r.Some? ==>
              && m.w == old(m.w) && r.value.version == CREDENTIAL_PAYLOAD_VERSION
              && r == if c.id in payloads then Some(payloads[c.id]) else KeyringPayload(c.credentialRef, m.w.keyring)
    ensures r.Some? ==> Resolves(c, payloads, m.w.keyring)
    ensures r.None? ==> m.w.faults > old(m.w).faults || !Resolves(c, payloads, m.w.keyring)
  {
    if c.id in payloads {
      r := Some(payloads[c.id]);
    } else if c.credentialRef.None? {
      r := None;
    } else {
      r := FetchPayload(m, c.credentialRef.value);
    }
    if r.Some? && r.value.version != CREDENTIAL_PAYLOAD_VERSION {
      r := None;
    }
  }

  /** The bundle of an encrypted file, opened with the master key, and that key. */
  method OpenBundle(m: Machine, disk: DiskConfig, ghost base: nat, ghost promise: Promise)
    returns (r: Option<(map<string, Payload>, Option<Key>)>)
    requires Fine(base, m.w, promise)
    modifies m
    ensures OnlyRead(old(m.w), old(m.history), m.w, m.history) && Fine(base, m.w, promise)
    ensures r.Some? ==>
              && m.w.faults == old(m.w).faults
              && (m.w.faults <= base + 1 ==> r.value.0 == Opened(disk, m.w.keyring))
              && (r.value.1.Some? <==> disk.secrets.Some?)
              && (r.value.1.Some? ==> m.w.cache == r.value.1)
              && (r.value.1.Some? && m.w.faults <= base + 1 ==> MasterOf(m.w.keyring) == r.value.1)
    ensures KeyFound(m.w) == KeyFound(old(m.w))
    ensures r.Some? ==> Opens(disk, old(m.w)) && r.value.0 == BundleOf(disk)
    ensures r.None? ==> m.w.faults > old(m.w).faults || !Opens(disk, old(m.w))
  {
    if disk.secrets.None? {
      return Some((map[], None));
    }
    var key := MasterKeyOf(m, false, base, promise);
    if key.None? || key.value.0 != disk.secrets.value.key || disk.secrets.value.version != SECRET_BUNDLE_VERSION {
      return None;
    }
    return Some((disk.secrets.value.credentials, Some(key.value.0)));
  }

  function AllRefs(connections: seq<DiskConnection>): set<string> {
    set i | 0 <= i < |connections| && connections[i].credentialRef.Some? :: connections[i].credentialRef.value
  }

  lemma AllRefsGrow(connections: seq<DiskConnection>, i: nat)
    requires i < |connections|
    ensures AllRefs(connections[..i + 1]) ==
              AllRefs(connections[..i]) +
              (if connections[i].credentialRef.Some? then {connections[i].credentialRef.value} else {})
  {
    assert connections[..i + 1] == connections[..i] + [connections[i]];
  }

  /** A well-formed reference, if any, that no earlier connection has. */
  predicate RefInOrder(c: DiskConnection, others: set<string>) {
    c.credentialRef.Some? ==> ValidReference(c.credentialRef.value) && c.credentialRef.value !in others
  }

  ghost predicate RefsInOrder(connections: seq<DiskConnection>) {
    forall i :: 0 <= i < |connections| ==> RefInOrder(connections[i], AllRefs(connections[..i]))
  }

  /** A connection of an encrypted file: no plaintext, an own well-formed reference if any, and a credential. */
  predicate EncryptedEntry(c: DiskConnection, others: set<string>, bundle: map<string, Payload>, keyring: Keyring) {
    c.legacy.None? && c.legacyEnv == map[] && RefInOrder(c, others) && Resolves(c, bundle, keyring)
  }

  ghost predicate EntriesReadable(connections: seq<DiskConnection>, bundle: map<string, Payload>, keyring: Keyring) {
    forall i :: 0 <= i < |connections| ==> EncryptedEntry(connections[i], AllRefs(connections[..i]), bundle, keyring)
  }

  /** The bundle opens, every connection is in order, and no bundle entry is left over. */
  ghost predicate EncryptedReadable(disk: DiskConfig, w: World) {
    DistinctIds(disk.connections) && Opens(disk, w) &&
    EntriesReadable(disk.connections, BundleOf(disk), w.keyring) && BundleOf(disk).Keys <= Ids(disk.connections)
  }

  /** `h` is `c` with its credential. */
  predicate Hydrates(c: DiskConnection, h: RuntimeConnection, bundle: map<string, Payload>, keyring: Keyring) {
    h.id == c.id && h.meta == c.meta && Resolves(c, bundle, keyring) &&
    h.cred == (if c.id in bundle then Cred(bundle[c.id].connectionString, bundle[c.id].env)
               else var p := KeyringPayload(c.credentialRef, keyring).value; Cred(p.connectionString, p.env))
  }

  function Ids(connections: seq<DiskConnection>): set<string> {
    set i | 0 <= i < |connections| :: connections[i].id
  }

  lemma IdsGrow(connections: seq<DiskConnection>, i: nat)
    requires i < |connections|
    ensures Ids(connections[..i + 1]) == Ids(connections[..i]) + {connections[i].id}
    ensures DistinctIds(connections) ==> connections[i].id !in Ids(connections[..i])
  {
    assert connections[..i + 1] == connections[..i] + [connections[i]];
  }

  /** The credential of one connection of an encrypted file, `payloads` being what is left of the bundle. */
  method HydrateOneEncrypted(m: Machine, c: DiskConnection, oldReferences: set<string>, payloads: map<string, Payload>)
    returns (r: Option<Cred>)
    modifies m
    ensures m.history == old(m.history) && m.w == old(m.w).(faults := m.w.faults) && old(m.w).faults <= m.w.faults
    ensures r.Some? ==>
              && m.w == old(m.w) && EncryptedEntry(c, oldReferences, payloads, m.w.keyring)
              && r == (if c.id in payloads then Some(Cred(payloads[c.id].connectionString, payloads[c.id].env))
                       else var p := KeyringPayload(c.credentialRef, m.w.keyring).value; Some(Cred(p.connectionString, p.env)))
    ensures r.None? ==> m.w.faults > old(m.w).faults || !EncryptedEntry(c, oldReferences, payloads, m.w.keyring)
  {
    if c.legacy.Some? || c.legacyEnv != map[] {
      return None;
    }
    if c.credentialRef.Some? && (!ValidReference(c.credentialRef.value) || c.credentialRef.value in oldReferences) {
      return None;
    }
    var payload := ResolveEncrypted(m, c, payloads);
    if payload.None? {
      return None;
    }
    return Some(Cred(payload.value.connectionString, payload.value.env));
  }

  lemma NoOrphans(bundle: map<string, Payload>, ids: set<string>)
    ensures bundle - ids == map[] <==> bundle.Keys <= ids
  {
    assert (bundle - ids).Keys == bundle.Keys - ids;
    assert forall x :: x in bundle.Keys ==> x in ids || x in bundle.Keys - ids;
    if bundle.Keys <= ids {
      assert bundle.Keys - ids == {};
    }
  }

  /** What the loop below knows after `i` connections: `left` is the rest of the bundle. */
  ghost predicate HydratedUpTo(connections: seq<DiskConnection>, i: nat, hydrated: seq<RuntimeConnection>,
                               references: set<string>, left: map<string, Payload>,
                               bundle: map<string, Payload>, keyring: Keyring)
  {
    && i <= |connections| && |hydrated| == i && MASTER_KEY_REFERENCE !in references
    && references == AllRefs(connections[..i]) && left == bundle - Ids(connections[..i])
    && forall j :: 0 <= j < i ==>
         EncryptedEntry(connections[j], AllRefs(connections[..j]), bundle, keyring) &&
         Hydrates(connections[j], hydrated[j], bundle, keyring)
  }

  lemma HydrateStep(connections: seq<DiskConnection>, i: nat, hydrated: seq<RuntimeConnection>, references: set<string>,
                    left: map<string, Payload>, bundle: map<string, Payload>, keyring: Keyring, h: RuntimeConnection)
    requires DistinctIds(connections) && i < |connections|
    requires HydratedUpTo(connections, i, hydrated, references, left, bundle, keyring)
    requires EncryptedEntry(connections[i], references, left, keyring) && Hydrates(connections[i], h, left, keyring)
    ensures var c := connections[i];
            HydratedUpTo(connections, i + 1, hydrated + [h],
                         if c.credentialRef.Some? then references + {c.credentialRef.value} else references,
                         left - {c.id}, bundle, keyring)
  {
    MasterKeyIsNoReference();
    AllRefsGrow(connections, i);
    IdsGrow(connections, i);
    assert connections[i].id in left <==> connections[i].id in bundle;
  }

  lemma HydrateStops(connections: seq<DiskConnection>, i: nat, hydrated: seq<RuntimeConnection>, references: set<string>,
                     left: map<string, Payload>, bundle: map<string, Payload>, keyring: Keyring)
    requires DistinctIds(connections) && i < |connections|
    requires HydratedUpTo(connections, i, hydrated, references, left, bundle, keyring)
    requires !EncryptedEntry(connections[i], references, left, keyring)
    ensures !EntriesReadable(connections, bundle, keyring)
  {
    IdsGrow(connections, i);
    assert connections[i].id in left <==> connections[i].id in bundle;
  }

  /** The loop of hydrate_encrypted_config over the connections. */
  method HydrateConnections(m: Machine, disk: DiskConfig, bundle: map<string, Payload>)
    returns (r: Option<(seq<RuntimeConnection>, set<string>)>)
    requires DistinctIds(disk.connections)
    modifies m
    ensures m.history == old(m.history) && m.w == old(m.w).(faults := m.w.faults) && old(m.w).faults <= m.w.faults
    ensures r.Some? ==>
              && m.w == old(m.w) && r.value.1 == AllRefs(disk.connections) && MASTER_KEY_REFERENCE !in r.value.1
              && EntriesReadable(disk.connections, bundle, m.w.keyring) && bundle.Keys <= Ids(disk.connections)
              && |r.value.0| == |disk.connections|
              && forall i :: 0 <= i < |disk.connections| ==> Hydrates(disk.connections[i], r.value.0[i], bundle, m.w.keyring)
    ensures r.None? ==>
              || m.w.faults > old(m.w).faults
              || !EntriesReadable(disk.connections, bundle, m.w.keyring) || !(bundle.Keys <= Ids(disk.connections))
  {
    var payloads := bundle;
    var oldReferences: set<string> := {};
    var connections: seq<RuntimeConnection> := [];
    for i := 0 to |disk.connections|
      invariant m.w == old(m.w) && m.history == old(m.history)
      invariant HydratedUpTo(disk.connections, i, connections, oldReferences, payloads, bundle, m.w.keyring)
    {
      var c := disk.connections[i];
      var cred := HydrateOneEncrypted(m, c, oldReferences, payloads);
      if cred.None? {
        if m.w.faults == old(m.w).faults {
          HydrateStops(disk.connections, i, connections, oldReferences, payloads, bundle, m.w.keyring);
        }
        return None;
      }
      var hydrated := RuntimeConnection(c.id, c.meta, cred.value);
      HydrateStep(disk.connections, i, connections, oldReferences, payloads, bundle, m.w.keyring, hydrated);
      if c.credentialRef.Some? {
        oldReferences := oldReferences + {c.credentialRef.value};
      }
      payloads := payloads - {c.id};
      connections := connections + [hydrated];
    }
    assert disk.connections[..|disk.connections|] == disk.connections;
    NoOrphans(bundle, Ids(disk.connections));
    return if payloads != map[] then None else Some((connections, oldReferences));
  }

  /** hydrate_encrypted_config: every connection from the bundle, else from the keyring; no orphans. */
  method HydrateEncrypted(m: Machine, disk: DiskConfig, ghost base: nat, ghost promise: Promise)
    returns (r: Option<(RuntimeConfig, set<string>)>)
    requires Fine(base, m.w, promise)
    requires DiskFormat(disk) == Some(Encrypted)
    modifies m
    ensures OnlyRead(old(m.w), old(m.history), m.w, m.history) && Fine(base, m.w, promise)
    ensures KeyFound(m.w) == KeyFound(old(m.w))
    ensures r.Some? ==>
              && m.w.faults == old(m.w).faults
              && (m.w.faults <= base + 1 ==> RuntimeView(r.value.0) == View(disk, m.w.keyring))
              && r.value.0.active == disk.active && RuntimeIds(r.value.0.connections)
              && MASTER_KEY_REFERENCE !in r.value.1
              && (HasBlob(disk) ==> m.w.cache.Some?)
    ensures r.Some? ==> EncryptedReadable(disk, old(m.w)) && r.value.1 == AllRefs(disk.connections)
    ensures r.Some? ==> SameIds(r.value.0.connections, disk.connections)
    ensures r.None? ==> m.w.faults > old(m.w).faults || !EncryptedReadable(disk, old(m.w))
  {
    var valid := ValidateConnectionIds(disk.connections);
    if !valid {
      return None;
    }
    var unsealed := OpenBundle(m, disk, base, promise);
    if unsealed.None? {
      return None;
    }
    var hydrated := HydrateConnections(m, disk, unsealed.value.0);
    if hydrated.None? {
      return None;
    }
    r := Some((RuntimeConfig(hydrated.value.0, disk.active), hydrated.value.1));
    HydratedMeans(disk, hydrated.value.0, unsealed.value.0, m.w.keyring);
  }

  lemma HydratedMeans(disk: DiskConfig, connections: seq<RuntimeConnection>, bundle: map<string, Payload>, keyring: Keyring)
    requires DiskFormat(disk) == Some(Encrypted) && DistinctIds(disk.connections) && |connections| == |disk.connections|
    requires forall i :: 0 <= i < |disk.connections| ==> Hydrates(disk.connections[i], connections[i], bundle, keyring)
    ensures RuntimeIds(connections)
    ensures bundle == Opened(disk, keyring) ==> RuntimeView(RuntimeConfig(connections, disk.active)) == View(disk, keyring)
  {
    assert forall i :: 0 <= i < |connections| ==> connections[i].id == disk.connections[i].id;
  }
}
