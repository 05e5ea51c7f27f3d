/**
 The unlock functions as a single caller sees them, in the source's imperative form, and what
 one launch leaves behind for the next.
 */
module UnlockCalls {
  import opened Wrappers
  import opened Unlock
  import opened UnlockTheorems

  // ---------------------------------------------------------------- the calls as functions

  function CountFailure(orb: Orb): Orb {
    orb.(failures := if orb.failures < MAX_FAILURES then orb.failures + 1 else MAX_FAILURES)
  }

  function FinishUnlock(p: Primitives, orb: Orb, master: Bytes): (Orb, Option<AuthError>) {
    match orb.config.assetEncryption
    case None =>
      if Verifies(p, orb.config, master) then (orb.(unlocked := true, failures := 0), None)
      else (CountFailure(orb), Some(InvalidPassword))
    case Some(enc) =>
      if orb.blob.None? then (orb, Some(Crypto)) else (
        match Decrypt(p, enc, master, orb.blob.value)
        case Err(error) => (CountFailure(orb), Some(error))
        case Ok(zip) => (
          match p.parse(zip)
          case None => (orb, Some(Crypto))
          case Some(k) =>
            (orb.(knowledge := if orb.knowledge.None? then Some(k) else orb.knowledge, blob := None, unlocked := true, failures := 0), None)))
  }

  function PerformUnlock(p: Primitives, orb: Orb, chain: Keychain, password: string, available: bool): (Orb, Keychain, Option<AuthError>) {
    if IsUnlocked(orb) then (orb, chain, None)
    else match p.stretch(password, orb.config.password.value.salt)
      case None => (orb, chain, Some(Crypto))
      case Some(master) =>
        var (orb', error) := FinishUnlock(p, orb, master);
        var remembers := error.None? && Remembers(orb.config) && available;
        (orb', if remembers then chain[orb.config.password.value.identity := master] else chain, error)
  }

  function Recall(config: SecurityConfig, chain: Keychain, available: bool): Option<Bytes> {
    if config.password.Some? && available && config.password.value.identity in chain
       && |chain[config.password.value.identity]| == MASTER_KEY_LEN
    then Some(chain[config.password.value.identity]) else None
  }

  function TryAutoUnlock(p: Primitives, orb: Orb, chain: Keychain, available: bool): (Orb, Keychain) {
    if orb.config.password.None? then (orb, chain)
    else
      var swept := if Remembers(orb.config) then chain else Forget(orb.config, chain, available);
      match Recall(orb.config, chain, available)
      case None => (orb, swept)
      case Some(master) =>
        var (orb', error) := FinishUnlock(p, orb, master);
        (orb', if error.None? then chain else Forget(orb.config, chain, available))
  }

  // ---------------------------------------------------------------- the calls are uninterrupted attempts

  lemma SoloReject(p: Primitives, orb: Orb, chain: Keychain, error: AuthError, auto: bool, available: bool)
    ensures Solo(p, orb, chain, Failing(error, auto), available) == Solo(p, CountFailure(orb), chain, Rejected(error, auto), available)
  {}

  lemma SoloPublish(p: Primitives, orb: Orb, chain: Keychain, master: Bytes, k: Knowledge, auto: bool, available: bool)
    ensures var published := orb.(knowledge := if orb.knowledge.None? then Some(k) else orb.knowledge);
            Solo(p, orb, chain, Publishing(master, k, auto), available) ==
            Solo(p, published.(blob := None), chain, Marking(master, auto), available)
  {}

  lemma SoloFinish(p: Primitives, orb: Orb, chain: Keychain, master: Bytes, auto: bool, available: bool)
    ensures var (orb', error) := FinishUnlock(p, orb, master);
            Solo(p, orb, chain, HaveKeys(master, auto), available) ==
            if error.Some? then Solo(p, orb', chain, Rejected(error.value, auto), available)
            else Solo(p, orb', chain, if auto then Done(None) else Remembering(master), available)
  {
    if orb.config.assetEncryption.None? {
      SoloMark(p, orb, chain, master, auto, available);
      SoloReject(p, orb, chain, InvalidPassword, auto, available);
    } else if orb.blob.Some? {
      var at := HaveBlob(master, orb.blob.value, auto);
      assert Solo(p, orb, chain, HaveKeys(master, auto), available) == Solo(p, orb, chain, at, available);
      match Decrypt(p, orb.config.assetEncryption.value, master, orb.blob.value)
      case Err(error) =>
        assert Solo(p, orb, chain, at, available) == Solo(p, orb, chain, Failing(error, auto), available);
        SoloReject(p, orb, chain, error, auto, available);
      case Ok(zip) =>
        if p.parse(zip).None? {
          assert Solo(p, orb, chain, at, available) == Solo(p, orb, chain, Rejected(Crypto, auto), available);
        } else {
          var k := p.parse(zip).value;
          assert Solo(p, orb, chain, at, available) == Solo(p, orb, chain, Publishing(master, k, auto), available);
          SoloPublish(p, orb, chain, master, k, auto, available);
          var cleared := orb.(knowledge := if orb.knowledge.None? then Some(k) else orb.knowledge, blob := None);
          SoloMark(p, cleared, chain, master, auto, available);
        }
    }
  }

  lemma SoloMark(p: Primitives, orb: Orb, chain: Keychain, master: Bytes, auto: bool, available: bool)
    ensures Solo(p, orb, chain, Marking(master, auto), available) ==
            Solo(p, orb.(unlocked := true, failures := 0), chain, if auto then Done(None) else Remembering(master), available)
  {}

  lemma PerformIsSolo(p: Primitives, orb: Orb, chain: Keychain, password: string, available: bool)
    ensures PerformUnlock(p, orb, chain, password, available) == Solo(p, orb, chain, Entered(password), available)
  {
    if !IsUnlocked(orb) && p.stretch(password, orb.config.password.value.salt).Some? {
      SoloFinish(p, orb, chain, p.stretch(password, orb.config.password.value.salt).value, false, available);
    }
  }

  lemma SoloForget(p: Primitives, orb: Orb, chain: Keychain, available: bool)
    ensures Solo(p, orb, chain, Forgetting, available) == (orb, Forget(orb.config, chain, available), None)
  {
    var once := Forget(orb.config, chain, available);
    assert Forget(orb.config, once, available) == once;
    assert Solo(p, orb, once, Cleaning, available) == (orb, once, None);
  }

  lemma AutoIsSolo(p: Primitives, orb: Orb, chain: Keychain, available: bool)
    ensures var s := Solo(p, orb, chain, Recalling, available); TryAutoUnlock(p, orb, chain, available) == (s.0, s.1)
  {
    if Recall(orb.config, chain, available).Some? {
      var master := Recall(orb.config, chain, available).value;
      SoloFinish(p, orb, chain, master, true, available);
      SoloForget(p, FinishUnlock(p, orb, master).0, chain, available);
    }
  }

  function Repeat(a: Action, n: nat): seq<Action> {
    if n == 0 then [] else [a] + Repeat(a, n - 1)
  }

  lemma RunOnce(p: Primitives, orb: Orb, chain: Keychain, at: Attempt, available: bool, rest: seq<Action>)
    ensures var (orb', chain', at') := Advance(p, orb, chain, at, available);
            Exec(p, World(orb, chain, [at]), [Run(0, available)] + rest) == Exec(p, World(orb', chain', [at']), rest)
  {
    var (orb', chain', at') := Advance(p, orb, chain, at, available);
    var acts := [Run(0, available)] + rest;
    assert acts[1..] == rest;
    assert [at][0 := at'] == [at'];
    assert Step(p, World(orb, chain, [at]), acts[0]) == World(orb', chain', [at']);
  }

  lemma AdvanceIsProgress(p: Primitives, orb: Orb, chain: Keychain, at: Attempt, available: bool)
    requires !at.Done?
    ensures StepsLeft(Advance(p, orb, chain, at, available).2) < StepsLeft(at)
  {}

  /** An uninterrupted attempt is a run of the step system: everything proved of runs is true of these calls. */
  lemma {:induction false} SoloIsARun(p: Primitives, orb: Orb, chain: Keychain, at: Attempt, available: bool, n: nat)
    requires n >= StepsLeft(at)
    ensures var s := Solo(p, orb, chain, at, available);
            Exec(p, World(orb, chain, [at]), Repeat(Run(0, available), n)) == World(s.0, s.1, [Done(s.2)])
    decreases n
  {
    if n == 0 {
      assert at.Done?;
    } else {
      var (orb', chain', at') := Advance(p, orb, chain, at, available);
      RunOnce(p, orb, chain, at, available, Repeat(Run(0, available), n - 1));
      if !at.Done? {
        AdvanceIsProgress(p, orb, chain, at, available);
      }
      SoloIsARun(p, orb', chain', at', available, n - 1);
    }
  }

  // ---------------------------------------------------------------- which passwords open

  /** A locked password-only Orb opens to exactly the passwords that stretch to its key. */
  lemma PasswordOpensIff(p: Primitives, orb: Orb, chain: Keychain, password: string, available: bool, key: Bytes)
    requires TagOf(p, orb.config, key) && orb.config.assetEncryption.None? && !IsUnlocked(orb)
    ensures var (orb', chain', error) := PerformUnlock(p, orb, chain, password, available);
            var opens := p.stretch(password, orb.config.password.value.salt) == Some(key);
            (error.None? <==> opens) && (IsUnlocked(orb') <==> opens)
  {}

  /** An encrypted one opens to exactly those whose key opens its payload to an archive that parses, and publishes that. */
  lemma SealedOpensIff(p: Primitives, orb: Orb, chain: Keychain, password: string, available: bool, key: Bytes, archive: Bytes)
    requires orb.config.assetEncryption.Some? && !IsUnlocked(orb) && orb.blob.Some? && orb.knowledge.None?
    requires Sealed(p, orb.config.assetEncryption.value, orb.blob.value, key, archive)
    ensures var (orb', chain', error) := PerformUnlock(p, orb, chain, password, available);
            var master := p.stretch(password, orb.config.password.value.salt);
            var opens := master.Some? && p.assetLeg(master.value) == key
                         && |orb.config.assetEncryption.value.nonce| == 24 && p.parse(archive).Some?;
            && (error.None? <==> opens) && (IsUnlocked(orb') <==> opens)
            && orb'.knowledge == (if opens then p.parse(archive) else None)
            && orb'.blob == (if opens then None else orb.blob)
  {}

  /** Why an attempt is refused: a wrong password is one whose tag differs or whose key does not open the payload; all else
      that goes wrong is a fault of the cryptography or of the package. */
  lemma RefusedFor(p: Primitives, orb: Orb, chain: Keychain, password: string, available: bool)
    requires !IsUnlocked(orb)
    ensures var (orb', chain', error) := PerformUnlock(p, orb, chain, password, available);
            var config := orb.config;
            var master := p.stretch(password, config.password.value.salt);
            && (error == Some(InvalidPassword) <==>
                  master.Some? &&
                  if config.assetEncryption.None? then config.password.value.authVerifier != Some(p.mac(p.authLeg(master.value)))
                  else
                    var enc := config.assetEncryption.value;
                    && orb.blob.Some? && |enc.nonce| == 24
                    && p.open(enc.nonce, enc.aad, p.assetLeg(master.value), orb.blob.value).None?)
            && (error == Some(Crypto) <==>
                  || master.None?
                  || (config.assetEncryption.Some? &&
                      var enc := config.assetEncryption.value;
                      || orb.blob.None? || |enc.nonce| != 24
                      || (var zip := p.open(enc.nonce, enc.aad, p.assetLeg(master.value), orb.blob.value);
                          zip.Some? && p.parse(zip.value).None?)))
  {}

  // ---------------------------------------------------------------- from one launch to the next

  /**
   After a successful unlock of a remember-on-device Orb with a working keychain, a later launch of
   the same Orb opens without the password for as long as the entry stands, and leaves it standing.
   */
  lemma RememberedRoundTrip(p: Primitives, config: SecurityConfig, assets: LoadedAssets, creds: iset<Bytes>,
                            orb: Orb, chain: Keychain, password: string, later: Keychain)
    requires WellFormed(config, assets) && KeysHaveLength(p) && OrbOk(p, config, assets, creds, orb)
    requires !IsUnlocked(orb) && Remembers(config)
    requires PerformUnlock(p, orb, chain, password, true).2 == None
    requires var kept := PerformUnlock(p, orb, chain, password, true).1;
             var identity := config.password.value.identity;
             identity in later && identity in kept && later[identity] == kept[identity]
    ensures var (orb', chain') := TryAutoUnlock(p, NewOrb(config, assets), later, true);
            IsUnlocked(orb') && orb'.knowledge.Some? && chain' == later
  {}

  /** The keychain gives a key back if it answers and holds 32 bytes under the Orb's identity, and those. */
  lemma RecalledIff(config: SecurityConfig, chain: Keychain, available: bool, m: Bytes)
    ensures Recall(config, chain, available) == Some(m) <==> available && OwnEntry(config, chain, m) && |m| == 32
  {}

  /** A key saved from outside opens the next launch, whatever the Orb's policy, and one deleted does not. */
  lemma SavedElsewhereOpens(p: Primitives, config: SecurityConfig, assets: LoadedAssets, chain: Keychain, m: Bytes)
    requires WellFormed(config, assets) && config.password.Some? && |m| == 32 && Accepts(p, config, assets, m)
    ensures var identity := config.password.value.identity;
            && IsUnlocked(TryAutoUnlock(p, NewOrb(config, assets), Step(p, Launch(config, assets, chain), SaveElsewhere(identity, m)).chain, true).0)
            && !IsUnlocked(TryAutoUnlock(p, NewOrb(config, assets), Step(p, Launch(config, assets, chain), DeleteElsewhere(identity)).chain, true).0)
  {}

  /** The key becomes the entry if and only if the Orb was locked, the key was accepted, and the policy says so. */
  lemma RememberedIff(p: Primitives, orb: Orb, chain: Keychain, password: string, available: bool, master: Bytes)
    requires orb.config.password.Some? && !OwnEntry(orb.config, chain, master)
    requires p.stretch(password, orb.config.password.value.salt) == Some(master)
    ensures var chain' := PerformUnlock(p, orb, chain, password, available).1;
            OwnEntry(orb.config, chain', master) <==>
            !IsUnlocked(orb) && available && orb.config.password.value.persistence == RememberOnThisDevice && FinishUnlock(p, orb, master).1 == None
  {}

  /** The key still opens this very process: the verifier matches, or the ciphertext is still held and opens. */
  predicate StillOpens(p: Primitives, orb: Orb, master: Bytes) {
    if orb.config.assetEncryption.None? then Verifies(p, orb.config, master)
    else orb.blob.Some? && Opened(p, orb.config.assetEncryption.value, master, orb.blob.value).Some?
  }

  /** An entry survives an uninterrupted attempt if and only if the store does not answer or the key still opens this process. */
  lemma EntrySurvivesIff(p: Primitives, orb: Orb, chain: Keychain, master: Bytes, available: bool)
    requires Recall(orb.config, chain, true) == Some(master)
    ensures var (orb', chain') := TryAutoUnlock(p, orb, chain, available);
            && (orb.config.password.value.identity in chain' <==> !available || StillOpens(p, orb, master))
            && (!available ==> orb' == orb && chain' == chain)
            && (available && StillOpens(p, orb, master) ==> IsUnlocked(orb') && chain' == chain)
            && (available && !StillOpens(p, orb, master) ==>
                  chain' == chain - {orb.config.password.value.identity} && orb'.unlocked == orb.unlocked)
  {}

  /**
   So a good entry is lost when another attempt has already opened an encrypted Orb and cleared its
   ciphertext: the late attempt fails on the missing payload and forgets a key that still opens the Orb.
   */
  lemma LateAttemptForgetsGoodKey(p: Primitives, config: SecurityConfig, assets: LoadedAssets, orb: Orb, chain: Keychain, master: Bytes)
    requires assets.Encrypted? && WellFormed(config, assets) && orb.config == config && orb.unlocked && orb.blob.None?
    requires Recall(config, chain, true) == Some(master) && Accepts(p, config, assets, master)
    ensures config.password.value.identity !in TryAutoUnlock(p, orb, chain, true).1
    ensures IsUnlocked(TryAutoUnlock(p, NewOrb(config, assets), chain, true).0)
  {}

  /** Failures are counted exactly for refused keys, never for a missing or unparsable payload, and an opening clears them. */
  lemma FailuresCounted(p: Primitives, orb: Orb, master: Bytes)
    ensures var (orb', error) := FinishUnlock(p, orb, master);
            var refused := if orb.config.assetEncryption.None? then !Verifies(p, orb.config, master)
                           else orb.blob.Some? && Decrypt(p, orb.config.assetEncryption.value, master, orb.blob.value).Err?;
            && (error.None? <==> StillOpens(p, orb, master))
            && orb'.failures == (if error.None? then 0 else if !refused then orb.failures else if orb.failures < MAX_FAILURES then orb.failures + 1 else MAX_FAILURES)
  {}

  // ---------------------------------------------------------------- the objects

  /** The operating system's credential store; it may refuse to answer. */
  class DeviceStore {
    var entries: Keychain
    var available: bool

    method Remember(identity: Bytes, master: Bytes) returns (ok: bool)
      modifies this`entries
      ensures ok == available && entries == if available then old(entries)[identity := master] else old(entries)
    {
      if available {
        entries := entries[identity := master];
      }
      ok := available;
    }

    method Recall(identity: Bytes) returns (r: Option<Bytes>)
      ensures r.Some? <==> available && identity in entries && |entries[identity]| == MASTER_KEY_LEN
      ensures r.Some? ==> |r.value| == MASTER_KEY_LEN && entries == entries[identity := r.value]
    {
      r := if available && identity in entries && |entries[identity]| == MASTER_KEY_LEN then Some(entries[identity]) else None;
    }

    method Forget(identity: Bytes)
      modifies this`entries
      ensures entries == if available then old(entries) - {identity} else old(entries)
    {
      if available {
        entries := entries - {identity};
      }
    }
  }

  class OrbState {
    const config: SecurityConfig
    var unlocked: bool
    var failedAttempts: nat
    var knowledge: Option<Knowledge>
    var encryptedBlob: Option<Bytes>

    function Snapshot(): Orb
      reads this
    {
      Orb(config, unlocked, failedAttempts, knowledge, encryptedBlob)
    }

    constructor (config: SecurityConfig, assets: LoadedAssets)
      ensures Snapshot() == NewOrb(config, assets)
    {
      this.config := config;
      unlocked, failedAttempts := false, 0;
      knowledge := match assets case Plain(k) => Some(k) case Encrypted(_) => None;
      encryptedBlob := match assets case Plain(_) => None case Encrypted(payload) => Some(payload);
    }

    method RecordFailure()
      modifies this`failedAttempts
      ensures Snapshot() == CountFailure(old(Snapshot()))
    {
      if failedAttempts < MAX_FAILURES {
        failedAttempts := failedAttempts + 1;
      } else {
        failedAttempts := MAX_FAILURES;
      }
    }

    method MarkUnlocked()
      modifies this`unlocked, this`failedAttempts
      ensures unlocked && failedAttempts == 0
    {
      unlocked := true;
      failedAttempts := 0;
    }

    /** The first writer wins. */
    method SetKnowledge(k: Knowledge) returns (first: bool)
      modifies this`knowledge
      ensures first == old(knowledge).None? && knowledge == if first then Some(k) else old(knowledge)
    {
      first := knowledge.None?;
      if first {
        knowledge := Some(k);
      }
    }

    method Finish(p: Primitives, store: DeviceStore, master: Bytes, persist: bool) returns (error: Option<AuthError>)
      modifies this, store`entries
      ensures (Snapshot(), error) == FinishUnlock(p, old(Snapshot()), master)
      ensures store.entries == if error.None? && persist && Remembers(config) && store.available
                               then old(store.entries)[config.password.value.identity := master] else old(store.entries)
    {
      match config.assetEncryption {
        case None =>
          if !Verifies(p, config, master) {
            RecordFailure();
            return Some(InvalidPassword);
          }
          MarkUnlocked();
        case Some(enc) =>
          if encryptedBlob.None? {
            return Some(Crypto);
          }
          match Decrypt(p, enc, master, encryptedBlob.value) {
            case Ok(zip) =>
              if p.parse(zip).None? {
                return Some(Crypto);
              }
              var first := SetKnowledge(p.parse(zip).value);
              encryptedBlob := None;
              MarkUnlocked();
            case Err(e) =>
              RecordFailure();
              return Some(e);
          }
      }
      if persist && Remembers(config) {
        var ok := store.Remember(config.password.value.identity, master);
      }
      return None;
    }

    method Perform(p: Primitives, store: DeviceStore, password: string) returns (error: Option<AuthError>)
      modifies this, store`entries
      ensures (Snapshot(), store.entries, error) == PerformUnlock(p, old(Snapshot()), old(store.entries), password, store.available)
    {
      if IsUnlocked(Snapshot()) {
        return None;
      }
      var master := p.stretch(password, config.password.value.salt);
      if master.None? {
        return Some(Crypto);
      }
      error := Finish(p, store, master.value, true);
    }

    method TryAuto(p: Primitives, store: DeviceStore)
      modifies this, store`entries
      ensures (Snapshot(), store.entries) == TryAutoUnlock(p, old(Snapshot()), old(store.entries), store.available)
    {
      if config.password.None? {
        return;
      }
      var identity := config.password.value.identity;
      var master := store.Recall(identity);
      if master.Some? {
        var error := Finish(p, store, master.value, false);
        if error.None? {
          return;
        }
        store.Forget(identity);
      }
      if !Remembers(config) {
        store.Forget(identity);
      }
      assert (old(store.entries) - {identity}) - {identity} == old(store.entries) - {identity};
    }
  }
}
