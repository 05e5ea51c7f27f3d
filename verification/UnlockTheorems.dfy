/** What every run of unlock attempts keeps, and what survives from one launch to the next. */
module UnlockTheorems {
  import opened Wrappers
  import opened Unlock

  // ---------------------------------------------------------------- the invariant

  /** What opening the payload with this key yields, if anything. */
  function Opened(p: Primitives, enc: AssetEncryption, master: Bytes, payload: Bytes): Option<Knowledge> {
    match Decrypt(p, enc, master, payload)
    case Err(_) => None
    case Ok(zip) => p.parse(zip)
  }

  /** The keys this Orb accepts: they match the verifier, or they open the payload. */
  predicate Accepts(p: Primitives, config: SecurityConfig, assets: LoadedAssets, master: Bytes) {
    if config.assetEncryption.None? then Verifies(p, config, master)
    else assets.Encrypted? && Opened(p, config.assetEncryption.value, master, assets.payload).Some?
  }

  /** Loaders produce ciphertext only for a config with an encryption block. */
  predicate FromLoader(config: SecurityConfig, assets: LoadedAssets) {
    assets.Encrypted? ==> config.assetEncryption.Some?
  }

  /** What no parser enforces: encrypted assets come with a password. */
  predicate WellFormed(config: SecurityConfig, assets: LoadedAssets) {
    assets.Encrypted? ==> config.assetEncryption.Some? && config.password.Some?
  }

  predicate OwnEntry(config: SecurityConfig, chain: Keychain, secret: Bytes) {
    config.password.Some? && config.password.value.identity in chain && chain[config.password.value.identity] == secret
  }

  /** Some presented credential is accepted by this Orb. */
  ghost predicate Admitted(p: Primitives, config: SecurityConfig, assets: LoadedAssets, creds: iset<Bytes>) {
    exists m :: m in creds && Accepts(p, config, assets, m)
  }

  ghost predicate OrbOk(p: Primitives, config: SecurityConfig, assets: LoadedAssets, creds: iset<Bytes>, orb: Orb)
    requires WellFormed(config, assets)
  {
    && orb.config == config
    && (orb.unlocked ==> Admitted(p, config, assets, creds))
    && (orb.blob.Some? ==> assets.Encrypted?)
    && (assets.Plain? ==> orb.knowledge == Some(assets.knowledge))
    && (assets.Encrypted? ==>
          && (orb.blob.Some? ==> orb.blob.value == assets.payload)
          && (orb.knowledge.None? ==> orb.blob.Some? && !orb.unlocked)
          && (orb.knowledge.Some? ==> exists m :: m in creds && Opened(p, config.assetEncryption.value, m, assets.payload) == orb.knowledge))
  }

  /** What an attempt has established by the time it reaches each of its steps. */
  ghost predicate AttemptOk(p: Primitives, config: SecurityConfig, assets: LoadedAssets, creds: iset<Bytes>, orb: Orb, at: Attempt)
    requires WellFormed(config, assets)
  {
    match at
    case HaveKeys(m, _) => m in creds
    case HaveBlob(m, payload, _) => m in creds && assets.Encrypted? && payload == assets.payload
    case Publishing(m, k, _) =>
      m in creds && assets.Encrypted? && Opened(p, config.assetEncryption.value, m, assets.payload) == Some(k)
    case Clearing(m, _) => m in creds && Accepts(p, config, assets, m) && orb.knowledge.Some?
    case Marking(m, _) => m in creds && Accepts(p, config, assets, m) && orb.knowledge.Some?
    case Resetting(m, _) => m in creds && Accepts(p, config, assets, m) && orb.unlocked
    case Remembering(m) => m in creds && Accepts(p, config, assets, m) && orb.unlocked
    case _ => true
  }

  ghost predicate ChainOk(config: SecurityConfig, chain: Keychain, creds: iset<Bytes>) {
    forall s :: OwnEntry(config, chain, s) ==> s in creds
  }

  ghost predicate Inv(p: Primitives, config: SecurityConfig, assets: LoadedAssets, creds: iset<Bytes>, w: World)
    requires WellFormed(config, assets)
  {
    && OrbOk(p, config, assets, creds, w.orb)
    && ChainOk(config, w.chain, creds)
    && forall k: nat :: k < |w.attempts| ==> AttemptOk(p, config, assets, creds, w.orb, w.attempts[k])
  }

  /** The credential this action presents to the Orb, if any, is among `creds`. */
  ghost predicate Presents(p: Primitives, config: SecurityConfig, creds: iset<Bytes>, a: Action) {
    match a
    case Enter(password) =>
      config.password.Some? && p.stretch(password, config.password.value.salt).Some? ==>
        p.stretch(password, config.password.value.salt).value in creds
    case SaveElsewhere(identity, secret) =>
      config.password.Some? && config.password.value.identity == identity ==> secret in creds
    case _ => true
  }

  /** Shared state only moves forward: the flag stays set, the knowledge stays, the ciphertext stays cleared. */
  predicate Forward(a: Orb, b: Orb) {
    && b.config == a.config
    && (a.unlocked ==> b.unlocked)
    && (a.knowledge.Some? ==> b.knowledge == a.knowledge)
    && (a.blob.None? ==> b.blob.None?)
  }

  // ---------------------------------------------------------------- every step keeps it

  lemma AdvanceOk(p: Primitives, config: SecurityConfig, assets: LoadedAssets, creds: iset<Bytes>, orb: Orb, chain: Keychain, at: Attempt, available: bool)
    requires WellFormed(config, assets) && OrbOk(p, config, assets, creds, orb) && ChainOk(config, chain, creds)
    requires AttemptOk(p, config, assets, creds, orb, at)
    requires at.Entered? ==> Presents(p, config, creds, Enter(at.password))
    ensures var (orb', chain', at') := Advance(p, orb, chain, at, available);
            && OrbOk(p, config, assets, creds, orb') && ChainOk(config, chain', creds)
            && AttemptOk(p, config, assets, creds, orb', at') && Forward(orb, orb')
            && (at'.Entered? ==> at' == at)
  {
    if at.Recalling? && config.password.Some? && config.password.value.identity in chain {
      assert OwnEntry(config, chain, chain[config.password.value.identity]);
    }
  }

  lemma AttemptStaysOk(p: Primitives, config: SecurityConfig, assets: LoadedAssets, creds: iset<Bytes>, orb: Orb, orb': Orb, at: Attempt)
    requires WellFormed(config, assets) && AttemptOk(p, config, assets, creds, orb, at) && Forward(orb, orb')
    ensures AttemptOk(p, config, assets, creds, orb', at)
  {}

  ghost predicate PasswordsPresented(p: Primitives, config: SecurityConfig, creds: iset<Bytes>, attempts: seq<Attempt>) {
    forall k: nat :: k < |attempts| && attempts[k].Entered? ==> Presents(p, config, creds, Enter(attempts[k].password))
  }

  lemma StepOk(p: Primitives, config: SecurityConfig, assets: LoadedAssets, creds: iset<Bytes>, w: World, a: Action)
    requires WellFormed(config, assets) && Inv(p, config, assets, creds, w)
    requires PasswordsPresented(p, config, creds, w.attempts) && Presents(p, config, creds, a)
    ensures var v := Step(p, w, a);
            Inv(p, config, assets, creds, v) && PasswordsPresented(p, config, creds, v.attempts) && Forward(w.orb, v.orb)
  {
    var v := Step(p, w, a);
    if a.Run? && a.attempt < |w.attempts| {
      AdvanceOk(p, config, assets, creds, w.orb, w.chain, w.attempts[a.attempt], a.available);
      forall k: nat | k < |w.attempts| && k != a.attempt ensures AttemptOk(p, config, assets, creds, v.orb, w.attempts[k]) {
        AttemptStaysOk(p, config, assets, creds, w.orb, v.orb, w.attempts[k]);
      }
    }
  }

  lemma {:induction false} RunOk(p: Primitives, config: SecurityConfig, assets: LoadedAssets, creds: iset<Bytes>, w: World, acts: seq<Action>)
    requires WellFormed(config, assets) && Inv(p, config, assets, creds, w)
    requires PasswordsPresented(p, config, creds, w.attempts)
    requires forall i :: 0 <= i < |acts| ==> Presents(p, config, creds, acts[i])
    ensures var v := Exec(p, w, acts);
            Inv(p, config, assets, creds, v) && PasswordsPresented(p, config, creds, v.attempts) && Forward(w.orb, v.orb)
    decreases |acts|
  {
    if acts != [] {
      StepOk(p, config, assets, creds, w, acts[0]);
      RunOk(p, config, assets, creds, Step(p, w, acts[0]), acts[1..]);
    }
  }

  // ---------------------------------------------------------------- promises over whole runs

  /** Every credential the run presents: keys stretched from entered passwords, and secrets the keychain held or was given. */
  ghost predicate Presented(p: Primitives, config: SecurityConfig, chain: Keychain, acts: seq<Action>, m: Bytes) {
    config.password.Some? &&
    ( || OwnEntry(config, chain, m)
      || (exists i :: 0 <= i < |acts| && acts[i].Enter? && p.stretch(acts[i].password, config.password.value.salt) == Some(m))
      || (exists i :: 0 <= i < |acts| && acts[i] == SaveElsewhere(config.password.value.identity, m)))
  }

  ghost function Credentials(p: Primitives, config: SecurityConfig, chain: Keychain, acts: seq<Action>): iset<Bytes> {
    iset m | Presented(p, config, chain, acts, m)
  }

  lemma AllPresented(p: Primitives, config: SecurityConfig, chain: Keychain, acts: seq<Action>)
    ensures forall i :: 0 <= i < |acts| ==> Presents(p, config, Credentials(p, config, chain, acts), acts[i])
  {}

  lemma LaunchedRunOk(p: Primitives, config: SecurityConfig, assets: LoadedAssets, chain: Keychain, acts: seq<Action>)
    requires WellFormed(config, assets)
    ensures Inv(p, config, assets, Credentials(p, config, chain, acts), Exec(p, Launch(config, assets, chain), acts))
  {
    AllPresented(p, config, chain, acts);
    RunOk(p, config, assets, Credentials(p, config, chain, acts), Launch(config, assets, chain), acts);
  }

  /**
   Over any run of concurrent attempts the flag is set only when a presented credential is accepted,
   an open Orb has its knowledge, and a cleared payload was published first.
   */
  lemma UnlockIsSafe(p: Primitives, config: SecurityConfig, assets: LoadedAssets, chain: Keychain, acts: seq<Action>)
    requires WellFormed(config, assets)
    ensures var orb := Exec(p, Launch(config, assets, chain), acts).orb;
            && (IsUnlocked(orb) ==> orb.knowledge.Some?)
            && (assets.Encrypted? && orb.blob.None? ==> orb.knowledge.Some?)
            && (orb.unlocked ==> exists m :: Presented(p, config, chain, acts, m) && Accepts(p, config, assets, m))
  {
    LaunchedRunOk(p, config, assets, chain, acts);
    var orb := Exec(p, Launch(config, assets, chain), acts).orb;
    var creds := Credentials(p, config, chain, acts);
    if orb.unlocked {
      assert Admitted(p, config, assets, creds);
      var m :| m in creds && Accepts(p, config, assets, m);
      assert Presented(p, config, chain, acts, m);
    }
  }

  lemma {:induction false} ExecConcat(p: Primitives, w: World, xs: seq<Action>, ys: seq<Action>)
    ensures Exec(p, w, xs + ys) == Exec(p, Exec(p, w, xs), ys)
    decreases |xs|
  {
    if xs == [] {
      assert xs + ys == ys;
    } else {
      assert (xs + ys)[1..] == xs[1..] + ys;
      ExecConcat(p, Step(p, w, xs[0]), xs[1..], ys);
    }
  }

  /** However a run goes on, the flag is never reset, published knowledge never changes, cleared ciphertext never returns. */
  lemma UnlockIsMonotone(p: Primitives, config: SecurityConfig, assets: LoadedAssets, chain: Keychain, acts: seq<Action>, more: seq<Action>)
    requires WellFormed(config, assets)
    ensures Forward(Exec(p, Launch(config, assets, chain), acts).orb, Exec(p, Launch(config, assets, chain), acts + more).orb)
  {
    var creds := Credentials(p, config, chain, acts + more);
    var w := Launch(config, assets, chain);
    AllPresented(p, config, chain, acts + more);
    forall i | 0 <= i < |acts| ensures Presents(p, config, creds, acts[i]) {
      assert (acts + more)[i] == acts[i];
    }
    forall i | 0 <= i < |more| ensures Presents(p, config, creds, more[i]) {
      assert (acts + more)[|acts| + i] == more[i];
    }
    RunOk(p, config, assets, creds, w, acts);
    RunOk(p, config, assets, creds, Exec(p, w, acts), more);
    ExecConcat(p, w, acts, more);
  }

  /** Whatever the keychain and the run, an open Orb has its knowledge: the condition the panicking accessor relies on. */
  ghost predicate NeverOpenAndEmpty(p: Primitives, config: SecurityConfig, assets: LoadedAssets) {
    forall chain, acts :: IsUnlocked(Exec(p, Launch(config, assets, chain), acts).orb) ==>
      Exec(p, Launch(config, assets, chain), acts).orb.knowledge.Some?
  }

  /** What the loaders produce is safe exactly when encrypted assets come with a password. */
  lemma SafeIffWellFormed(p: Primitives, config: SecurityConfig, assets: LoadedAssets)
    requires FromLoader(config, assets)
    ensures NeverOpenAndEmpty(p, config, assets) <==> WellFormed(config, assets)
  {
    if WellFormed(config, assets) {
      forall chain, acts
        ensures IsUnlocked(Exec(p, Launch(config, assets, chain), acts).orb) ==>
                Exec(p, Launch(config, assets, chain), acts).orb.knowledge.Some?
      {
        UnlockIsSafe(p, config, assets, chain, acts);
      }
    } else {
      assert Exec(p, Launch(config, assets, map[]), []) == Launch(config, assets, map[]);
    }
  }

  /** The axiom on the AEAD: under this key the payload opens to this archive, and under no other key at all. */
  ghost predicate Sealed(p: Primitives, enc: AssetEncryption, payload: Bytes, key: Bytes, archive: Bytes) {
    forall k :: p.open(enc.nonce, enc.aad, k, payload) == if k == key then Some(archive) else None
  }

  /** Whichever attempt wins, what is published is what was packaged, and a key that seals the payload was presented. */
  lemma PublishesWhatWasPackaged(p: Primitives, config: SecurityConfig, assets: LoadedAssets, chain: Keychain, acts: seq<Action>, key: Bytes, archive: Bytes)
    requires WellFormed(config, assets) && assets.Encrypted?
    requires Sealed(p, config.assetEncryption.value, assets.payload, key, archive)
    ensures var orb := Exec(p, Launch(config, assets, chain), acts).orb;
            orb.knowledge.Some? ==>
              && orb.knowledge == p.parse(archive)
              && exists m :: Presented(p, config, chain, acts, m) && p.assetLeg(m) == key
  {
    LaunchedRunOk(p, config, assets, chain, acts);
    var orb := Exec(p, Launch(config, assets, chain), acts).orb;
    var creds := Credentials(p, config, chain, acts);
    if orb.knowledge.Some? {
      var m :| m in creds && Opened(p, config.assetEncryption.value, m, assets.payload) == orb.knowledge;
      assert Presented(p, config, chain, acts, m);
    }
  }

  /** The stored verifier is the tag of exactly this key: what a collision-free MAC gives a password-only Orb. */
  ghost predicate TagOf(p: Primitives, config: SecurityConfig, key: Bytes) {
    config.password.Some? && forall m :: config.password.value.authVerifier == Some(p.mac(p.authLeg(m))) <==> m == key
  }

  /** However attempts interleave, a password-only Orb is open only if its one key was presented. */
  lemma OpenOnlyToItsKey(p: Primitives, config: SecurityConfig, assets: LoadedAssets, chain: Keychain, acts: seq<Action>, key: Bytes)
    requires WellFormed(config, assets) && config.assetEncryption.None? && TagOf(p, config, key)
    ensures Exec(p, Launch(config, assets, chain), acts).orb.unlocked ==> Presented(p, config, chain, acts, key)
  {
    UnlockIsSafe(p, config, assets, chain, acts);
  }

  /** Runs of an Orb with another identity leave a keychain entry alone. */
  lemma {:induction false} OtherOrbsKeepEntries(p: Primitives, w: World, acts: seq<Action>, identity: Bytes)
    requires w.orb.config.password.Some? ==> w.orb.config.password.value.identity != identity
    requires forall i :: 0 <= i < |acts| ==> !(acts[i].SaveElsewhere? || acts[i].DeleteElsewhere?) || acts[i].identity != identity
    ensures var v := Exec(p, w, acts);
            && (identity in v.chain <==> identity in w.chain)
            && (identity in w.chain ==> v.chain[identity] == w.chain[identity])
    decreases |acts|
  {
    if acts != [] {
      OtherOrbsKeepEntries(p, Step(p, w, acts[0]), acts[1..], identity);
    }
  }
}
