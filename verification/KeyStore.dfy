/**
 The keyring and the master key (store.rs): what every reachable state must satisfy, and how a config
 is committed, a new key taken back and old entries deleted, on a machine whose every filesystem and
 keyring call may fail and may be the last before a crash.
 */
module KeyStore {
  import opened Common
  import opened ConfigModel
  import opened ConfigCommit

  /** Within one failing operation since `base`, the world keeps its promise. */
  ghost predicate Fine(base: nat, w: World, promise: Promise) {
    base <= w.faults && (w.faults <= base + 1 ==> Good(w, promise))
  }

  ghost predicate AllFine(base: nat, before: seq<World>, after: seq<World>, promise: Promise) {
    && before <= after
    && forall k :: |before| <= k < |after| ==> Fine(base, after[k], promise)
  }

  // ----- the keyring -----

  /** A failed write may still have taken effect. */
  method SetSecret(m: Machine, reference: string, secret: Secret) returns (ok: bool)
    modifies m
    ensures m.history == old(m.history) + [m.w]
    ensures var done := old(m.w).(keyring := old(m.w).keyring[reference := secret]);
            if ok then m.w == done
            else m.w in {old(m.w).(faults := old(m.w).faults + 1), done.(faults := old(m.w).faults + 1)}
  {
    ok := *;
    var effect: bool := *;
    var next := m.w;
    if ok || effect {
      next := next.(keyring := next.keyring[reference := secret]);
    }
    if !ok {
      next := next.(faults := next.faults + 1);
    }
    m.Become(next);
  }

  method DeleteSecret(m: Machine, reference: string) returns (ok: bool)
    modifies m
    ensures m.history == old(m.history) + [m.w]
    ensures var gone := old(m.w).(keyring := old(m.w).keyring - {reference});
            if ok then m.w == gone
            else m.w in {old(m.w).(faults := old(m.w).faults + 1), gone.(faults := old(m.w).faults + 1)}
  {
    ok := *;
    var effect: bool := *;
    var next := m.w;
    if ok || effect {
      next := next.(keyring := next.keyring - {reference});
    }
    if !ok {
      next := next.(faults := next.faults + 1);
    }
    m.Become(next);
  }

  /** credentials.get followed by CredentialPayload::parse. */
  method FetchPayload(m: Machine, reference: string) returns (r: Option<Payload>)
    requires ValidReference(reference)
    modifies m
    ensures m.history == old(m.history)
    ensures m.w == old(m.w).(faults := m.w.faults) && old(m.w).faults <= m.w.faults
    ensures r.Some? ==> m.w.faults == old(m.w).faults && r == KeyringPayload(Some(reference), m.w.keyring)
    ensures r.None? ==> m.w.faults > old(m.w).faults || KeyringPayload(Some(reference), m.w.keyring) == None
  {
    var ok := m.Read();
    if !ok || reference !in m.w.keyring || !m.w.keyring[reference].Credential? {
      return None;
    }
    var payload := m.w.keyring[reference].payload;
    return if payload.version == CREDENTIAL_PAYLOAD_VERSION then Some(payload) else None;
  }

  // ----- the master key -----

  lemma NewMasterKeyIsGood(w: World, key: Key, promise: Promise)
    requires Good(w, promise) && MASTER_KEY_REFERENCE !in w.keyring
    ensures Good(w.(keyring := w.keyring[MASTER_KEY_REFERENCE := MasterKey(key)]), promise)
    ensures forall cfg :: cfg in Candidates(w.files) ==> !HasBlob(cfg)
  {
    MasterKeyIsNoReference();
    var kr := w.keyring[MASTER_KEY_REFERENCE := MasterKey(key)];
    forall cfg | cfg in Candidates(w.files) ensures Sound(cfg, kr, promise) {
      assert Sound(cfg, w.keyring, promise);
      MasterKeyFrame(cfg, w.keyring, kr);
    }
  }

  /** The key a cached or stored key is; and whether one can be had, given leave to make one. */
  function KeyFound(w: World): Option<Key> {
    if w.cache.Some? then w.cache else MasterOf(w.keyring)
  }

  predicate KeyAvailable(w: World, allowCreate: bool) {
    KeyFound(w).Some? || (allowCreate && MASTER_KEY_REFERENCE !in w.keyring)
  }

  /**
   master_key. A cached key is handed out as it is; a new key is made only if the keyring has none,
   and no caller asks for one while the config it has loaded holds a sealed blob.
   */
  method MasterKeyOf(m: Machine, allowCreate: bool, ghost base: nat, ghost promise: Promise)
    returns (r: Option<(Key, bool)>)
    requires Fine(base, m.w, promise)
    requires allowCreate && m.w.cache.None? ==> Loaded(m.w.files).Some? && !HasBlob(Loaded(m.w.files).value)
    modifies m
    ensures AllFine(base, old(m.history), m.history, promise) && Fine(base, m.w, promise)
    ensures m.w.files == old(m.w).files && old(m.w).faults <= m.w.faults
    ensures r.Some? ==> m.w.faults == old(m.w).faults && m.w.cache == Some(r.value.0)
    ensures r.Some? && m.w.faults <= base + 1 ==> MasterOf(m.w.keyring) == Some(r.value.0)
    ensures r.Some? && r.value.1 ==>
              && allowCreate && old(m.w).cache.None? && MASTER_KEY_REFERENCE !in old(m.w).keyring
              && m.w.keyring == old(m.w).keyring[MASTER_KEY_REFERENCE := MasterKey(r.value.0)]
    ensures r.Some? && r.value.1 && m.w.faults <= base + 1 ==>
              forall cfg :: cfg in Candidates(m.w.files) ==> !HasBlob(cfg)
    ensures r.Some? && !r.value.1 ==> m.w.keyring == old(m.w).keyring && m.history == old(m.history)
    ensures !allowCreate ==> m.w.keyring == old(m.w).keyring && m.history == old(m.history)
    ensures r.Some? ==> KeyAvailable(old(m.w), allowCreate)
    ensures !allowCreate ==> KeyFound(m.w) == KeyFound(old(m.w))
    ensures r.Some? && !r.value.1 ==> KeyFound(old(m.w)) == Some(r.value.0)
    ensures r.None? ==> m.w.faults > old(m.w).faults || !KeyAvailable(old(m.w), allowCreate)
  {
    if m.w.cache.Some? {
      return Some((m.w.cache.value, false));
    }
    var ok := m.Read();
    if !ok {
      return None;
    }
    if MASTER_KEY_REFERENCE in m.w.keyring {
      var secret := m.w.keyring[MASTER_KEY_REFERENCE];
      if !secret.MasterKey? {
        return None;
      }
      m.w := m.w.(cache := Some(secret.key));
      return Some((secret.key, false));
    }
    if !allowCreate {
      return None;
    }
    var key: Key := *;
    ghost var before := m.w;
    if before.faults <= base + 1 {
      NewMasterKeyIsGood(before, key, promise);
    }
    ok := SetSecret(m, MASTER_KEY_REFERENCE, MasterKey(key));
    if !ok {
      return None;
    }
    m.w := m.w.(cache := Some(key));
    return Some((key, true));
  }

  /** rollback_new_master_key: nothing on disk was sealed with the key, so it can go again. */
  method RollbackNewMasterKey(m: Machine, key: Key, ghost base: nat, ghost promise: Promise)
    requires Fine(base, m.w, promise)
    requires m.w.faults <= base + 1 ==> forall cfg :: cfg in Candidates(m.w.files) ==> !HasBlob(cfg)
    requires m.w.cache == Some(key)
    modifies m
    ensures AllFine(base, old(m.history), m.history, promise) && Fine(base, m.w, promise)
    ensures old(m.w).faults <= m.w.faults && m.w.files == old(m.w).files
  {
    m.w := m.w.(cache := None);
    ghost var before := m.w;
    var _ := DeleteSecret(m, MASTER_KEY_REFERENCE);
    if m.w.faults <= base + 1 {
      MasterKeyIsNoReference();
      forall cfg | cfg in Candidates(before.files) ensures Sound(cfg, m.w.keyring, promise) {
        assert Sound(cfg, before.keyring, promise);
        MasterKeyFrame(cfg, before.keyring, m.w.keyring);
      }
    }
  }

  // ----- committing -----

  lemma TransitIsFine(base: nat, w1: World, w: World, cfg: DiskConfig, promise: Promise)
    requires Fine(base, w1, promise) && Steady(w1.files) && InTransit(w1, w, cfg)
    requires w1.faults <= base + 1 ==> Sound(cfg, w1.keyring, promise)
    ensures Fine(base, w, promise)
  {
    if w.faults <= base + 1 {
      CrashAtomic(w1, w, cfg);
    }
  }

  /** Every promise of the first kind is one of the second. */
  predicate Widens(promise: Promise, wider: Promise) {
    promise.meanings <= wider.meanings && (wider.distinctRefs ==> promise.distinctRefs)
  }

  lemma WiderIsFine(base: nat, before: seq<World>, after: seq<World>, promise: Promise, wider: Promise)
    requires AllFine(base, before, after, promise) && Widens(promise, wider)
    ensures AllFine(base, before, after, wider)
  {
    forall k | |before| <= k < |after| ensures Fine(base, after[k], wider) {
      assert Fine(base, after[k], promise);
    }
  }

  lemma AllFineTwice(base: nat, first: seq<World>, second: seq<World>, third: seq<World>, promise: Promise)
    requires AllFine(base, first, second, promise) && AllFine(base, second, third, promise)
    ensures AllFine(base, first, third, promise)
  {
    forall k | |first| <= k < |third| ensures Fine(base, third[k], promise) {
      assert k < |second| ==> third[k] == second[k];
    }
  }

  lemma SameFilesStayFine(base: nat, w1: World, w: World, promise: Promise)
    requires Fine(base, w1, promise) && w1.faults < w.faults
    requires w.keyring == w1.keyring && w.cache == w1.cache
    requires w.faults == w1.faults + 1 ==> w.files.primary == w1.files.primary && w.files.backup == w1.files.backup
    ensures Fine(base, w, promise)
  {
    if w.faults <= base + 1 {
      assert Candidates(w.files) == Candidates(w1.files);
    }
  }

  /**
   Write a config; if that fails and the key was new, take the key back. On the way the files may
   already mean what the new config means, hence `wider`; once an error is reported they do not.
   */
  method Commit(m: Machine, cfg: DiskConfig, mode: BackupMode, key: Option<Key>, created: bool,
                ghost base: nat, ghost promise: Promise, ghost wider: Promise) returns (ok: bool)
    requires Steady(m.w.files) && Fine(base, m.w, promise) && Widens(promise, wider)
    requires m.w.faults <= base + 1 ==> Sound(cfg, m.w.keyring, wider)
    requires created ==> key.Some? && m.w.cache == key
    requires created && m.w.faults <= base + 1 ==> forall c :: c in Candidates(m.w.files) ==> !HasBlob(c)
    modifies m
    ensures AllFine(base, old(m.history), m.history, wider) && Fine(base, m.w, wider)
    ensures !ok ==> Fine(base, m.w, promise)
    ensures !ok && m.w.faults == old(m.w).faults + 1 ==>
              m.w.files.primary == old(m.w).files.primary && m.w.files.backup == old(m.w).files.backup
    ensures old(m.w).faults <= m.w.faults
    ensures ok ==> m.w.files.primary == m.w.files.backup == Holds(cfg)
    ensures ok ==> m.w.keyring == old(m.w).keyring && m.w.cache == old(m.w).cache
    ensures !ok ==> m.w.faults > old(m.w).faults
  {
    ghost var w1, before := m.w, m.history;
    ok := WriteConfig(m, cfg, mode);
    TransitIsFine(base, w1, m.w, cfg, wider);
    forall k | |before| <= k < |m.history| ensures Fine(base, m.history[k], wider) {
      TransitIsFine(base, w1, m.history[k], cfg, wider);
    }
    if !ok {
      SameFilesStayFine(base, w1, m.w, promise);
      if created {
        ghost var written := m.history;
        RollbackNewMasterKey(m, key.value, base, promise);
        WiderIsFine(base, written, m.history, promise, wider);
        AllFineTwice(base, before, written, m.history, wider);
      }
    }
  }

  /** cleanup_legacy_artifacts, as one step that may fail. */
  method CleanUp(m: Machine, ghost base: nat, ghost promise: Promise) returns (ok: bool)
    requires Fine(base, m.w, promise)
    modifies m
    ensures AllFine(base, old(m.history), m.history, promise) && Fine(base, m.w, promise)
    ensures m.w == old(m.w).(files := old(m.w).files.(aside := m.w.files.aside), faults := m.w.faults) && old(m.w).faults <= m.w.faults
    ensures if ok then m.w.files.aside.Absent? else m.w.faults > old(m.w).faults
  {
    ok := true;
    if !m.w.files.aside.Absent? {
      assert Candidates(m.w.files.(aside := Absent)) == Candidates(m.w.files);
      ok := m.Remove(Aside);
    }
  }

  /** Whatever a load could read is encrypted and needs none of the references. */
  predicate Unneeded(w: World, references: set<string>) {
    forall cfg :: cfg in Candidates(w.files) ==>
      DiskFormat(cfg) == Some(Encrypted) && NeedsNone(cfg, w.keyring, references)
  }

  /** One unneeded entry fewer. */
  lemma DeletedIsGood(w: World, keyring: Keyring, reference: string, references: set<string>, promise: Promise)
    requires Good(w, promise) && Unneeded(w, references)
    requires reference in references && MASTER_KEY_REFERENCE !in references && keyring == w.keyring - {reference}
    ensures Good(w.(keyring := keyring), promise) && Unneeded(w.(keyring := keyring), references)
  {
    forall cfg | cfg in Candidates(w.files)
      ensures Sound(cfg, keyring, promise) && NeedsNone(cfg, keyring, references)
    {
      assert Sound(cfg, w.keyring, promise);
      assert NeedsNone(cfg, w.keyring, {reference});
      DeletingRefsHarmlessIff(cfg, w.keyring, {reference});
      NeedsNoneStays(cfg, w.keyring, references, {reference});
    }
    assert MasterOf(keyring) == MasterOf(w.keyring);
  }

  /**
   Old keyring entries go last, each deletion on its own, failures only logged. If nothing needs them
   every state on the way is fine.
   */
  method DeleteReferences(m: Machine, references: set<string>, ghost base: nat, ghost promise: Promise)
    requires MASTER_KEY_REFERENCE !in references
    modifies m
    ensures old(m.history) <= m.history
    ensures Fine(base, old(m.w), promise) && (old(m.w).faults <= base + 1 ==> Unneeded(old(m.w), references)) ==>
              AllFine(base, old(m.history), m.history, promise) && Fine(base, m.w, promise)
    ensures old(m.w).faults <= m.w.faults && m.w.files == old(m.w).files
    ensures m.w.faults == old(m.w).faults ==> m.w.keyring == old(m.w).keyring - references
  {
    var left := references;
    ghost var unneeded := Fine(base, m.w, promise) && (m.w.faults <= base + 1 ==> Unneeded(m.w, references));
    while left != {}
      invariant left <= references && m.w.files == old(m.w).files && old(m.w).faults <= m.w.faults
      invariant m.w.faults == old(m.w).faults ==> m.w.keyring == old(m.w).keyring - (references - left)
      invariant old(m.history) <= m.history
      invariant unneeded ==> AllFine(base, old(m.history), m.history, promise) && Fine(base, m.w, promise)
      invariant unneeded && m.w.faults <= base + 1 ==> Unneeded(m.w, references)
      decreases left
    {
      var reference :| reference in left;
      ghost var before := m.w;
      var _ := DeleteSecret(m, reference);
      if unneeded && m.w.faults <= base + 1 && m.w.keyring != before.keyring {
        DeletedIsGood(before, m.w.keyring, reference, references, promise);
      }
      left := left - {reference};
    }
  }
}
