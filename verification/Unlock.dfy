/**
 Unlocking a packaged Orb: the shared `OrbState`, the OS keychain, and any number of concurrent
 unlock attempts. An attempt is a program counter; `Advance` is one access to shared state (the
 atomic flag, the failure counter, the write-once knowledge slot, the ciphertext, the keychain).
 The cryptography and the bundle parser are uninterpreted functions.
 */
module Unlock {
  import opened Wrappers

  type Bytes = seq<nat>

  datatype Manifest = Manifest(name: string, version: string, description: string)
  datatype Document = Document(id: nat, sourcePath: string)
  datatype Chunk = Chunk(documentId: nat, text: string)

  /** The decrypted, parsed contents of an Orb; `index` stands for its search indexes. */
  datatype Knowledge = Knowledge(manifest: Manifest, documents: seq<Document>, chunks: seq<Chunk>, index: nat)

  datatype Persistence = EveryLaunch | RememberOnThisDevice

  datatype PasswordConfig = PasswordConfig(salt: Bytes, authVerifier: Option<Bytes>, persistence: Persistence, identity: Bytes)

  datatype AssetEncryption = AssetEncryption(nonce: Bytes, aad: Bytes)

  datatype SecurityConfig = SecurityConfig(password: Option<PasswordConfig>, assetEncryption: Option<AssetEncryption>)

  datatype AuthError = InvalidPassword | Crypto

  /** What a loader hands over: plaintext knowledge, or the ciphertext of `orb_assets.enc`. */
  datatype LoadedAssets = Plain(knowledge: Knowledge) | Encrypted(payload: Bytes)

  /** Argon2, the two HKDF legs, HMAC, AEAD opening (nonce, aad, key, ciphertext), and the bundle parser. */
  datatype Primitives = Primitives(
    stretch: (string, Bytes) -> Option<Bytes>,
    authLeg: Bytes -> Bytes,
    assetLeg: Bytes -> Bytes,
    mac: Bytes -> Bytes,
    open: (Bytes, Bytes, Bytes, Bytes) -> Option<Bytes>,
    parse: Bytes -> Option<Knowledge>)

  const MASTER_KEY_LEN: nat := 32
  const NONCE_LEN: nat := 24
  const MAX_FAILURES: nat := 0xFFFF_FFFF

  /** A stretched password is always a 32-byte master key. */
  ghost predicate KeysHaveLength(p: Primitives) {
    forall password, salt :: p.stretch(password, salt).Some? ==> |p.stretch(password, salt).value| == MASTER_KEY_LEN
  }

  datatype Orb = Orb(config: SecurityConfig, unlocked: bool, failures: nat, knowledge: Option<Knowledge>, blob: Option<Bytes>)

  /** The keychain service: one secret per account, the account naming an Orb identity. */
  type Keychain = map<Bytes, Bytes>

  datatype Attempt =
    | Entered(password: string)
    | Recalling
    | HaveKeys(master: Bytes, auto: bool)
    | HaveBlob(master: Bytes, payload: Bytes, auto: bool)
    | Publishing(master: Bytes, knowledge: Knowledge, auto: bool)
    | Clearing(master: Bytes, auto: bool)
    | Marking(master: Bytes, auto: bool)
    | Resetting(master: Bytes, auto: bool)
    | Remembering(master: Bytes)
    | Failing(error: AuthError, auto: bool)
    | Forgetting
    | Cleaning
    | Done(result: Option<AuthError>)

  function NewOrb(config: SecurityConfig, assets: LoadedAssets): Orb {
    match assets
    case Plain(k) => Orb(config, false, 0, Some(k), None)
    case Encrypted(payload) => Orb(config, false, 0, None, Some(payload))
  }

  predicate IsUnlocked(orb: Orb) {
    orb.config.password.None? || orb.unlocked
  }

  /** The password-only check: the stored verifier is the MAC of the auth leg. */
  predicate Verifies(p: Primitives, config: SecurityConfig, master: Bytes) {
    config.password.Some? && config.password.value.authVerifier == Some(p.mac(p.authLeg(master)))
  }

  /** Opening the payload; a nonce of the wrong length is a crypto error, a bad tag a wrong password. */
  function Decrypt(p: Primitives, enc: AssetEncryption, master: Bytes, payload: Bytes): Result<Bytes, AuthError> {
    if |enc.nonce| != NONCE_LEN then Err(Crypto)
    else match p.open(enc.nonce, enc.aad, p.assetLeg(master), payload)
      case None => Err(InvalidPassword)
      case Some(zip) => Ok(zip)
  }

  function Rejected(error: AuthError, auto: bool): Attempt {
    if auto then Forgetting else Done(Some(error))
  }

  predicate Remembers(config: SecurityConfig) {
    config.password.Some? && config.password.value.persistence == RememberOnThisDevice
  }

  function Forget(config: SecurityConfig, chain: Keychain, available: bool): Keychain {
    if config.password.Some? && available then chain - {config.password.value.identity} else chain
  }

  /** One step of one attempt. `available` says whether the keychain answers this access. */
  function Advance(p: Primitives, orb: Orb, chain: Keychain, at: Attempt, available: bool): (Orb, Keychain, Attempt) {
    var config := orb.config;
    match at
    case Entered(password) =>
      if IsUnlocked(orb) then (orb, chain, Done(None))
      else (
        match p.stretch(password, config.password.value.salt)
        case None => (orb, chain, Done(Some(Crypto)))
        case Some(master) => (orb, chain, HaveKeys(master, false)))
    case Recalling =>
      if config.password.None? then (orb, chain, Done(None))
      else
        var identity := config.password.value.identity;
        if available && identity in chain && |chain[identity]| == MASTER_KEY_LEN
        then (orb, chain, HaveKeys(chain[identity], true)) else (orb, chain, Cleaning)
    case HaveKeys(master, auto) =>
      if config.assetEncryption.None? then
        (orb, chain, if Verifies(p, config, master) then Marking(master, auto) else Failing(InvalidPassword, auto))
      else
        (orb, chain, if orb.blob.None? then Rejected(Crypto, auto) else HaveBlob(master, orb.blob.value, auto))
    case HaveBlob(master, payload, auto) =>
      if config.assetEncryption.None? then (orb, chain, Rejected(Crypto, auto))
      else (
        match Decrypt(p, config.assetEncryption.value, master, payload)
        case Err(error) => (orb, chain, Failing(error, auto))
        case Ok(zip) =>
          (orb, chain, if p.parse(zip).None? then Rejected(Crypto, auto) else Publishing(master, p.parse(zip).value, auto)))
    case Publishing(master, knowledge, auto) =>
      (if orb.knowledge.None? then orb.(knowledge := Some(knowledge)) else orb, chain, Clearing(master, auto))
    case Clearing(master, auto) => (orb.(blob := None), chain, Marking(master, auto))
    case Marking(master, auto) => (orb.(unlocked := true), chain, Resetting(master, auto))
    case Resetting(master, auto) => (orb.(failures := 0), chain, if auto then Done(None) else Remembering(master))
    case Remembering(master) =>
      (orb, if Remembers(config) && available then chain[config.password.value.identity := master] else chain, Done(None))
    case Failing(error, auto) =>
      (orb.(failures := if orb.failures < MAX_FAILURES then orb.failures + 1 else MAX_FAILURES), chain, Rejected(error, auto))
    case Forgetting => (orb, Forget(config, chain, available), Cleaning)
    case Cleaning => (orb, if Remembers(config) then chain else Forget(config, chain, available), Done(None))
    case Done(_) => (orb, chain, at)
  }

  // ---------------------------------------------------------------- runs of many attempts

  datatype World = World(orb: Orb, chain: Keychain, attempts: seq<Attempt>)

  datatype Action =
    | Enter(password: string)
    | TryAuto
    | Run(attempt: nat, available: bool)
    | SaveElsewhere(identity: Bytes, secret: Bytes)
    | DeleteElsewhere(identity: Bytes)

  function Step(p: Primitives, w: World, a: Action): World {
    match a
    case Enter(password) => w.(attempts := w.attempts + [Entered(password)])
    case TryAuto => w.(attempts := w.attempts + [Recalling])
    case Run(k, available) =>
      if k < |w.attempts| then
        var (orb, chain, at) := Advance(p, w.orb, w.chain, w.attempts[k], available);
        World(orb, chain, w.attempts[k := at])
      else w
    case SaveElsewhere(identity, secret) => w.(chain := w.chain[identity := secret])
    case DeleteElsewhere(identity) => w.(chain := w.chain - {identity})
  }

  function Launch(config: SecurityConfig, assets: LoadedAssets, chain: Keychain): World {
    World(NewOrb(config, assets), chain, [])
  }

  function Exec(p: Primitives, w: World, acts: seq<Action>): World
    decreases |acts|
  {
    if acts == [] then w else Exec(p, Step(p, w, acts[0]), acts[1..])
  }

  // ---------------------------------------------------------------- one attempt on its own

  /** How many steps an attempt has left at most. */
  function StepsLeft(at: Attempt): nat {
    match at
    case Entered(_) => 9
    case Recalling => 9
    case HaveKeys(_, _) => 8
    case HaveBlob(_, _, _) => 7
    case Publishing(_, _, _) => 6
    case Clearing(_, _) => 5
    case Marking(_, _) => 4
    case Resetting(_, _) => 3
    case Remembering(_) => 1
    case Failing(_, _) => 3
    case Forgetting => 2
    case Cleaning => 1
    case Done(_) => 0
  }

  /** An attempt that nothing interrupts, run to its end. */
  function Solo(p: Primitives, orb: Orb, chain: Keychain, at: Attempt, available: bool): (Orb, Keychain, Option<AuthError>)
    decreases StepsLeft(at)
  {
    if at.Done? then (orb, chain, at.result)
    else
      var (orb', chain', at') := Advance(p, orb, chain, at, available);
      Solo(p, orb', chain', at', available)
  }
}
