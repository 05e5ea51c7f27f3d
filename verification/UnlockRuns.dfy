/** When a remembered key is forgotten, over runs of interleaved attempts. */
module UnlockRuns {
  import opened Wrappers
  import opened Unlock
  import opened UnlockTheorems
  import opened UnlockCalls

  // ---------------------------------------------------------------- one attempt, step by step

  /** An automatic attempt that is going to forget the entry. */
  predicate Doomed(at: Attempt) {
    at.Forgetting? || (at.Failing? && at.auto)
  }

  /** An automatic attempt that holds a recalled key and has not been refused. */
  predicate Hopeful(at: Attempt) {
    (at.HaveKeys? || at.HaveBlob? || at.Publishing? || at.Clearing? || at.Marking? || at.Resetting?) && at.auto
  }

  /** What the attempt meets at its next step is to its liking: its key verifies, the ciphertext is there, or opens. */
  predicate Likes(p: Primitives, orb: Orb, at: Attempt) {
    match at
    case HaveKeys(master, _) => if orb.config.assetEncryption.None? then Verifies(p, orb.config, master) else orb.blob.Some?
    case HaveBlob(master, payload, _) =>
      orb.config.assetEncryption.Some? && Opened(p, orb.config.assetEncryption.value, master, payload).Some?
    case _ => true
  }

  /** A stepwise attempt turns to forgetting exactly when it sees no ciphertext or a key that does not open; otherwise it
      stays hopeful or ends well. */
  lemma TurnsIff(p: Primitives, orb: Orb, chain: Keychain, at: Attempt, available: bool)
    requires Hopeful(at)
    ensures var next := Advance(p, orb, chain, at, available).2;
            && (Doomed(next) <==> !Likes(p, orb, at))
            && (!Doomed(next) ==> Hopeful(next) || next == Done(None))
            && Advance(p, orb, chain, at, available).1 == chain
  {}

  /** One that has turned forgets, whatever happens meanwhile, if the store answers at its forgetting step. */
  lemma DoomedForgets(p: Primitives, orb: Orb, chain: Keychain, at: Attempt, available: bool)
    requires Doomed(at) && orb.config.password.Some?
    ensures var (orb', chain', at') := Advance(p, orb, chain, at, available);
            && (at.Failing? ==> at' == Forgetting && chain' == chain)
            && (at.Forgetting? && available ==> orb.config.password.value.identity !in chain')
  {}

  // ---------------------------------------------------------------- a run that loses a good key

  /** Two automatic attempts start while the Orb is locked; the second recalls its key before the first is done. */
  function TwoAttempts(): seq<Action> {
    [TryAuto, TryAuto, Run(0, true), Run(1, true)]
    + [Run(0, true), Run(0, true), Run(0, true), Run(0, true), Run(0, true), Run(0, true)]
    + [Run(1, true), Run(1, true)]
  }

  /** The first attempt, from its key to the end, beside another that waits with its key. */
  lemma FirstOpens(p: Primitives, orb: Orb, chain: Keychain, master: Bytes)
    requires orb.config.assetEncryption.Some? && orb.config.password.Some? && orb.blob.Some? && orb.knowledge.None?
    requires Opened(p, orb.config.assetEncryption.value, master, orb.blob.value).Some?
    ensures var waiting := HaveKeys(master, true);
            var k := Opened(p, orb.config.assetEncryption.value, master, orb.blob.value);
            Exec(p, World(orb, chain, [waiting, waiting]), [Run(0, true), Run(0, true), Run(0, true), Run(0, true), Run(0, true), Run(0, true)])
            == World(orb.(knowledge := k, blob := None, unlocked := true, failures := 0), chain, [Done(None), waiting])
  {
    var waiting := HaveKeys(master, true);
    var k := Opened(p, orb.config.assetEncryption.value, master, orb.blob.value).value;
    var go := Run(0, true);
    var published := orb.(knowledge := Some(k));
    var cleared := published.(blob := None);
    var marked := cleared.(unlocked := true);
    Turn(p, World(orb, chain, [waiting, waiting]), World(orb, chain, [HaveBlob(master, orb.blob.value, true), waiting]), go, [go, go, go, go, go]);
    Turn(p, World(orb, chain, [HaveBlob(master, orb.blob.value, true), waiting]), World(orb, chain, [Publishing(master, k, true), waiting]), go, [go, go, go, go]);
    Turn(p, World(orb, chain, [Publishing(master, k, true), waiting]), World(published, chain, [Clearing(master, true), waiting]), go, [go, go, go]);
    Turn(p, World(published, chain, [Clearing(master, true), waiting]), World(cleared, chain, [Marking(master, true), waiting]), go, [go, go]);
    Turn(p, World(cleared, chain, [Marking(master, true), waiting]), World(marked, chain, [Resetting(master, true), waiting]), go, [go]);
    Turn(p, World(marked, chain, [Resetting(master, true), waiting]), World(marked.(failures := 0), chain, [Done(None), waiting]), go, []);
  }

  lemma Turn(p: Primitives, w: World, v: World, a: Action, rest: seq<Action>)
    requires Step(p, w, a) == v
    ensures Exec(p, w, [a] + rest) == Exec(p, v, rest)
  {
    assert ([a] + rest)[1..] == rest;
  }

  /**
   From a launch with a good key remembered, this run opens the Orb, publishes its knowledge, and
   forgets the key, which a fresh launch would still accept.
   */
  lemma RunForgetsGoodKey(p: Primitives, config: SecurityConfig, payload: Bytes, chain: Keychain, master: Bytes)
    requires WellFormed(config, Encrypted(payload)) && Recall(config, chain, true) == Some(master)
    requires Accepts(p, config, Encrypted(payload), master)
    ensures var w := Exec(p, Launch(config, Encrypted(payload), chain), TwoAttempts());
            && config.password.value.identity !in w.chain
            && w.orb.unlocked && w.orb.knowledge == Opened(p, config.assetEncryption.value, master, payload)
  {
    var orb := NewOrb(config, Encrypted(payload));
    var waiting := HaveKeys(master, true);
    var go := Run(0, true);
    var opening := [go, go, go, go, go, go];
    var late := [Run(1, true), Run(1, true)];
    assert TwoAttempts() == [TryAuto, TryAuto, Run(0, true), Run(1, true)] + (opening + late);
    BothRecall(p, orb, chain, master, opening + late);
    ExecConcat(p, World(orb, chain, [waiting, waiting]), opening, late);
    FirstOpens(p, orb, chain, master);
    SecondForgets(p, Exec(p, World(orb, chain, [waiting, waiting]), opening), master);
  }

  lemma BothRecall(p: Primitives, orb: Orb, chain: Keychain, master: Bytes, rest: seq<Action>)
    requires Recall(orb.config, chain, true) == Some(master)
    ensures Exec(p, World(orb, chain, []), [TryAuto, TryAuto, Run(0, true), Run(1, true)] + rest)
            == Exec(p, World(orb, chain, [HaveKeys(master, true), HaveKeys(master, true)]), rest)
  {
    var acts := [TryAuto, TryAuto, Run(0, true), Run(1, true)];
    assert acts + rest == [TryAuto] + ([TryAuto] + ([Run(0, true)] + ([Run(1, true)] + rest)));
    var waiting := HaveKeys(master, true);
    Turn(p, World(orb, chain, []), World(orb, chain, [Recalling]), TryAuto, [TryAuto] + ([Run(0, true)] + ([Run(1, true)] + rest)));
    Turn(p, World(orb, chain, [Recalling]), World(orb, chain, [Recalling, Recalling]), TryAuto, [Run(0, true)] + ([Run(1, true)] + rest));
    Turn(p, World(orb, chain, [Recalling, Recalling]), World(orb, chain, [waiting, Recalling]), Run(0, true), [Run(1, true)] + rest);
    Turn(p, World(orb, chain, [waiting, Recalling]), World(orb, chain, [waiting, waiting]), Run(1, true), rest);
  }

  lemma SecondForgets(p: Primitives, w: World, master: Bytes)
    requires |w.attempts| == 2 && w.attempts[1] == HaveKeys(master, true)
    requires w.orb.config.assetEncryption.Some? && w.orb.config.password.Some? && w.orb.blob.None?
    ensures Exec(p, w, [Run(1, true), Run(1, true)])
            == World(w.orb, w.chain - {w.orb.config.password.value.identity}, [w.attempts[0], Cleaning])
  {
    var turned := World(w.orb, w.chain, [w.attempts[0], Forgetting]);
    var go := Run(1, true);
    Turn(p, w, turned, go, [go]);
    Turn(p, turned, World(w.orb, w.chain - {w.orb.config.password.value.identity}, [w.attempts[0], Cleaning]), go, []);
  }

  // ---------------------------------------------------------------- Orbs whose good keys are safe

  /** The user leaves this Orb's entry alone. */
  predicate HandsOff(config: SecurityConfig, a: Action) {
    config.password.Some? && (a.SaveElsewhere? || a.DeleteElsewhere?) ==> a.identity != config.password.value.identity
  }

  predicate AllHandsOff(config: SecurityConfig, acts: seq<Action>) {
    forall i :: 0 <= i < |acts| ==> HandsOff(config, acts[i])
  }

  ghost predicate GoodEntry(p: Primitives, config: SecurityConfig, assets: LoadedAssets, chain: Keychain) {
    exists m :: OwnEntry(config, chain, m) && |m| == MASTER_KEY_LEN && Accepts(p, config, assets, m)
  }

  /** The keychain after a launch and a run. */
  function ChainAfter(p: Primitives, config: SecurityConfig, assets: LoadedAssets, chain: Keychain, acts: seq<Action>): Keychain {
    Exec(p, Launch(config, assets, chain), acts).chain
  }

  /** A good remembered key stays remembered in every run. */
  ghost predicate GoodKeysStay(p: Primitives, config: SecurityConfig, assets: LoadedAssets)
    requires config.password.Some?
  {
    forall chain, acts ::
      GoodEntry(p, config, assets, chain) && AllHandsOff(config, acts) ==>
        config.password.value.identity in ChainAfter(p, config, assets, chain, acts)
  }

  /** In a password-only Orb every attempt that could touch the entry holds a key that verifies. */
  predicate Harmless(p: Primitives, config: SecurityConfig, at: Attempt) {
    match at
    case HaveKeys(m, auto) => auto ==> Verifies(p, config, m)
    case HaveBlob(_, _, _) => false
    case Publishing(_, _, _) => false
    case Clearing(_, _) => false
    case Failing(_, auto) => !auto
    case Forgetting => false
    case Marking(m, _) => Verifies(p, config, m)
    case Resetting(m, _) => Verifies(p, config, m)
    case Remembering(m) => Verifies(p, config, m)
    case _ => true
  }

  predicate KeepsEntry(p: Primitives, config: SecurityConfig, w: World)
    requires config.password.Some?
  {
    && w.orb.config == config
    && config.password.value.identity in w.chain && Verifies(p, config, w.chain[config.password.value.identity])
    && forall k :: 0 <= k < |w.attempts| ==> Harmless(p, config, w.attempts[k])
  }

  lemma AdvanceKeepsEntry(p: Primitives, config: SecurityConfig, orb: Orb, chain: Keychain, at: Attempt, available: bool)
    requires Remembers(config) && config.assetEncryption.None? && orb.config == config && Harmless(p, config, at)
    requires config.password.value.identity in chain && Verifies(p, config, chain[config.password.value.identity])
    ensures var (orb', chain', at') := Advance(p, orb, chain, at, available);
            && orb'.config == config && Harmless(p, config, at')
            && config.password.value.identity in chain' && Verifies(p, config, chain'[config.password.value.identity])
  {}

  lemma {:induction false} RunKeepsEntry(p: Primitives, config: SecurityConfig, w: World, acts: seq<Action>)
    requires Remembers(config) && config.assetEncryption.None? && KeepsEntry(p, config, w)
    requires AllHandsOff(config, acts)
    ensures KeepsEntry(p, config, Exec(p, w, acts))
    decreases |acts|
  {
    if acts != [] {
      var a := acts[0];
      if a.Run? && a.attempt < |w.attempts| {
        AdvanceKeepsEntry(p, config, w.orb, w.chain, w.attempts[a.attempt], a.available);
      }
      assert KeepsEntry(p, config, Step(p, w, a));
      RunKeepsEntry(p, config, Step(p, w, a), acts[1..]);
    }
  }

  function MissedRecall(): seq<Action> {
    [TryAuto, Run(0, false), Run(0, true)]
  }

  /** An Orb that does not remember drops the entry when the store fails to answer a recall and then answers the sweep. */
  lemma SweptAway(p: Primitives, config: SecurityConfig, assets: LoadedAssets, chain: Keychain)
    requires config.password.Some? && !Remembers(config)
    ensures config.password.value.identity !in ChainAfter(p, config, assets, chain, MissedRecall())
  {
    var w := Launch(config, assets, chain);
    var recalling := w.(attempts := [Recalling]);
    var cleaning := w.(attempts := [Cleaning]);
    Turn(p, w, recalling, TryAuto, [Run(0, false), Run(0, true)]);
    Turn(p, recalling, cleaning, Run(0, false), [Run(0, true)]);
    Turn(p, cleaning, World(w.orb, chain - {config.password.value.identity}, [Done(None)]), Run(0, true), []);
  }

  lemma SafeKeysStay(p: Primitives, config: SecurityConfig, assets: LoadedAssets, chain: Keychain, acts: seq<Action>)
    requires Remembers(config) && config.assetEncryption.None? && GoodEntry(p, config, assets, chain)
    requires AllHandsOff(config, acts)
    ensures config.password.value.identity in ChainAfter(p, config, assets, chain, acts)
  {
    RunKeepsEntry(p, config, Launch(config, assets, chain), acts);
  }

  /** Good remembered keys are safe in every run if and only if the Orb remembers and is not encrypted (or no key is good). */
  lemma GoodKeysStayIff(p: Primitives, config: SecurityConfig, assets: LoadedAssets)
    requires WellFormed(config, assets) && config.password.Some?
    ensures GoodKeysStay(p, config, assets) <==>
            (config.password.value.persistence == RememberOnThisDevice && config.assetEncryption.None?) || forall m :: |m| == MASTER_KEY_LEN ==> !Accepts(p, config, assets, m)
  {
    if Remembers(config) && config.assetEncryption.None? {
      forall chain, acts | GoodEntry(p, config, assets, chain) && AllHandsOff(config, acts)
        ensures config.password.value.identity in ChainAfter(p, config, assets, chain, acts)
      {
        SafeKeysStay(p, config, assets, chain, acts);
      }
      assert GoodKeysStay(p, config, assets);
    } else if m :| |m| == MASTER_KEY_LEN && Accepts(p, config, assets, m) {
      var chain: Keychain := map[config.password.value.identity := m];
      assert OwnEntry(config, chain, m);
      var acts := LostInSomeRun(p, config, assets, chain, m);
      LossIsLoss(p, config, assets, chain, acts);
    } else {
      assert GoodKeysStay(p, config, assets);
    }
  }

  lemma LossIsLoss(p: Primitives, config: SecurityConfig, assets: LoadedAssets, chain: Keychain, acts: seq<Action>)
    requires config.password.Some? && GoodEntry(p, config, assets, chain) && AllHandsOff(config, acts)
    requires config.password.value.identity !in ChainAfter(p, config, assets, chain, acts)
    ensures !GoodKeysStay(p, config, assets)
  {}

  lemma LostInSomeRun(p: Primitives, config: SecurityConfig, assets: LoadedAssets, chain: Keychain, m: Bytes) returns (acts: seq<Action>)
    requires WellFormed(config, assets) && config.password.Some? && (!Remembers(config) || config.assetEncryption.Some?)
    requires OwnEntry(config, chain, m) && |m| == MASTER_KEY_LEN && Accepts(p, config, assets, m)
    ensures AllHandsOff(config, acts)
    ensures config.password.value.identity !in ChainAfter(p, config, assets, chain, acts)
  {
    if Remembers(config) {
      RunForgetsGoodKey(p, config, assets.payload, chain, m);
      AttemptsOnly(config);
      acts := TwoAttempts();
    } else {
      SweptAway(p, config, assets, chain);
      acts := MissedRecall();
    }
  }

  lemma AttemptsOnly(config: SecurityConfig)
    ensures AllHandsOff(config, TwoAttempts())
  {}

  // ---------------------------------------------------------------- what a run leaves for the next launch

  /** The entry was there before, or was saved from outside. */
  predicate FromOutside(config: SecurityConfig, chain: Keychain, acts: seq<Action>, m: Bytes) {
    OwnEntry(config, chain, m)
    || (config.password.Some? && exists i :: 0 <= i < |acts| && acts[i] == SaveElsewhere(config.password.value.identity, m))
  }

  lemma StepWritesGood(p: Primitives, config: SecurityConfig, assets: LoadedAssets, creds: iset<Bytes>, w: World, a: Action, m: Bytes)
    requires WellFormed(config, assets) && Inv(p, config, assets, creds, w)
    requires OwnEntry(config, Step(p, w, a).chain, m)
    ensures OwnEntry(config, w.chain, m) || (config.password.Some? && a == SaveElsewhere(config.password.value.identity, m))
            || (m in creds && Accepts(p, config, assets, m))
  {
    if a.Run? && a.attempt < |w.attempts| {
      assert AttemptOk(p, config, assets, creds, w.orb, w.attempts[a.attempt]);
    }
  }

  /** Whatever attempts interleave, an entry that a run wrote itself is a key the Orb accepts. */
  lemma {:induction false} RunWritesGood(p: Primitives, config: SecurityConfig, assets: LoadedAssets, creds: iset<Bytes>, w: World, acts: seq<Action>, m: Bytes)
    requires WellFormed(config, assets) && Inv(p, config, assets, creds, w) && PasswordsPresented(p, config, creds, w.attempts)
    requires forall i :: 0 <= i < |acts| ==> Presents(p, config, creds, acts[i])
    requires OwnEntry(config, Exec(p, w, acts).chain, m)
    ensures FromOutside(config, w.chain, acts, m) || (m in creds && Accepts(p, config, assets, m))
    decreases |acts|
  {
    if acts != [] {
      var v := Step(p, w, acts[0]);
      StepOk(p, config, assets, creds, w, acts[0]);
      RunWritesGood(p, config, assets, creds, v, acts[1..], m);
      if OwnEntry(config, v.chain, m) {
        StepWritesGood(p, config, assets, creds, w, acts[0], m);
      } else if i :| 0 <= i < |acts| - 1 && acts[1..][i] == SaveElsewhere(config.password.value.identity, m) {
        assert acts[i + 1] == SaveElsewhere(config.password.value.identity, m);
      }
    }
  }

  /**
   However the attempts of a run interleaved, with whatever outages of the keychain, an entry it
   leaves that does not come from outside opens the next launch without the password, and stays.
   */
  lemma RunRemembers(p: Primitives, config: SecurityConfig, assets: LoadedAssets, chain: Keychain, acts: seq<Action>, m: Bytes)
    requires WellFormed(config, assets) && KeysHaveLength(p)
    requires var left := Exec(p, Launch(config, assets, chain), acts).chain;
             OwnEntry(config, left, m) && !FromOutside(config, chain, acts, m)
    ensures var left := Exec(p, Launch(config, assets, chain), acts).chain;
            var (orb', chain') := TryAutoUnlock(p, NewOrb(config, assets), left, true);
            IsUnlocked(orb') && orb'.knowledge.Some? && chain' == left
  {
    var creds := Credentials(p, config, chain, acts);
    AllPresented(p, config, chain, acts);
    RunWritesGood(p, config, assets, creds, Launch(config, assets, chain), acts, m);
    assert Presented(p, config, chain, acts, m);
  }
}
