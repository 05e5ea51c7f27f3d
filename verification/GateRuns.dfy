/**
 The front door with requests that overlap. A request checks the gate in one step and reads the
 knowledge in a later one; in between other requests, and unlock attempts, may run.
 */
module GateRuns {
  import opened Unlock
  import opened UnlockTheorems
  import opened UnlockCalls
  import opened Gate

  datatype Pending =
    | Arrived(request: Request)
    | Unlocking(request: Request, attempt: nat)
    | Cleared(request: Request)
    | Answered(response: Response)
    | Crashed

  datatype Traffic = Traffic(world: World, requests: seq<Pending>)

  datatype Event =
    | Receive(request: Request)
    | Proceed(n: nat)
    | Elsewhere(action: Action)

  /** The requests an open and a locked Orb answer alike, or that only ask for the lock. */
  function Ungated(env: Session, orb: Orb, r: Request): Response
    requires !ReadsKnowledge(r) && !r.CallUnlock?
  {
    match r
    case NotAnObject => InvalidRequest
    case Notification => Silent
    case Initialize =>
      if orb.knowledge.Some? then
        ServerInfo(orb.knowledge.value.manifest.name, orb.knowledge.value.manifest.version, orb.knowledge.value.manifest.description)
      else ServerInfo("MCPOrb Runner", "", "")
    case CallWebUrl => WebUrl(env.url, env.mode, orb.config.password.Some?, IsUnlocked(orb))
    case CallUnknown(tool) => UnknownTool(tool)
    case UnknownMethod(m) => MethodNotFound(m)
  }

  /** One step of a request: past the gate or turned away, into an unlock attempt, out of one, or at the knowledge. */
  function Advanced(p: Primitives, env: Session, w: World, at: Pending): (World, Pending) {
    match at
    case Arrived(r) =>
      if r.CallUnlock? then
        if IsUnlocked(w.orb) then (w, Answered(Unlocked)) else (Step(p, w, Enter(r.password)), Unlocking(r, |w.attempts|))
      else if !ReadsKnowledge(r) then (w, Answered(Ungated(env, w.orb, r)))
      else if IsUnlocked(w.orb) then (w, Cleared(r))
      else if r.CallSearch? then (Step(p, w, TryAuto), Unlocking(r, |w.attempts|))
      else (w, Answered(if r.ToolsList? then LockedTools else OrbIsLocked))
    case Unlocking(r, k) =>
      if k >= |w.attempts| || !w.attempts[k].Done? then (w, at)
      else if r.CallUnlock? then (w, Answered(if w.attempts[k].result.None? then Unlocked else WrongPassword))
      else (w, if IsUnlocked(w.orb) then Cleared(r) else Answered(OrbIsLocked))
    case Cleared(r) =>
      (w, if w.orb.knowledge.None? then Crashed else if ReadsKnowledge(r) then Answered(UseKnowledge(env, w.orb.knowledge.value, r)) else at)
    case _ => (w, at)
  }

  function Happen(p: Primitives, env: Session, t: Traffic, e: Event): Traffic {
    match e
    case Receive(r) => t.(requests := t.requests + [Arrived(r)])
    case Proceed(n) =>
      if n < |t.requests| then
        var (world, at) := Advanced(p, env, t.world, t.requests[n]);
        Traffic(world, t.requests[n := at])
      else t
    case Elsewhere(a) => t.(world := Step(p, t.world, a))
  }

  function Course(p: Primitives, env: Session, t: Traffic, events: seq<Event>): Traffic
    decreases |events|
  {
    if events == [] then t else Course(p, env, Happen(p, env, t, events[0]), events[1..])
  }

  function Opening(config: SecurityConfig, assets: LoadedAssets, chain: Keychain): Traffic {
    Traffic(Launch(config, assets, chain), [])
  }

  // ---------------------------------------------------------------- the gate is total

  ghost predicate TrafficOk(p: Primitives, config: SecurityConfig, assets: LoadedAssets, creds: iset<Bytes>, t: Traffic)
    requires WellFormed(config, assets)
  {
    && Inv(p, config, assets, creds, t.world) && PasswordsPresented(p, config, creds, t.world.attempts)
    && forall n :: 0 <= n < |t.requests| ==> RequestOk(p, config, creds, t.world.orb, t.requests[n])
  }

  /** A request past the gate will find the knowledge, and holds a password that counts as presented. */
  ghost predicate RequestOk(p: Primitives, config: SecurityConfig, creds: iset<Bytes>, orb: Orb, at: Pending) {
    match at
    case Arrived(r) => r.CallUnlock? ==> Presents(p, config, creds, Enter(r.password))
    case Cleared(r) => ReadsKnowledge(r) && orb.knowledge.Some? && IsUnlocked(orb)
    case Unlocking(r, _) => r.CallUnlock? || r.CallSearch?
    case Crashed => false
    case Answered(_) => true
  }

  /** What an event presents to the Orb is among `creds`. */
  ghost predicate Brings(p: Primitives, config: SecurityConfig, creds: iset<Bytes>, e: Event) {
    match e
    case Receive(r) => r.CallUnlock? ==> Presents(p, config, creds, Enter(r.password))
    case Proceed(_) => true
    case Elsewhere(a) => Presents(p, config, creds, a)
  }

  lemma RequestStaysOk(p: Primitives, config: SecurityConfig, creds: iset<Bytes>, orb: Orb, orb': Orb, at: Pending)
    requires RequestOk(p, config, creds, orb, at) && Forward(orb, orb')
    ensures RequestOk(p, config, creds, orb', at)
  {}

  lemma AdvancedOk(p: Primitives, env: Session, config: SecurityConfig, assets: LoadedAssets, creds: iset<Bytes>, w: World, at: Pending)
    requires WellFormed(config, assets) && Inv(p, config, assets, creds, w) && PasswordsPresented(p, config, creds, w.attempts)
    requires RequestOk(p, config, creds, w.orb, at)
    ensures var (v, next) := Advanced(p, env, w, at);
            && Inv(p, config, assets, creds, v) && PasswordsPresented(p, config, creds, v.attempts)
            && v.orb == w.orb && RequestOk(p, config, creds, v.orb, next)
  {
    if at.Arrived? && at.request.CallUnlock? && !IsUnlocked(w.orb) {
      StepOk(p, config, assets, creds, w, Enter(at.request.password));
    } else if at.Arrived? && at.request.CallSearch? && !IsUnlocked(w.orb) {
      StepOk(p, config, assets, creds, w, TryAuto);
    }
  }

  lemma HappenOk(p: Primitives, env: Session, config: SecurityConfig, assets: LoadedAssets, creds: iset<Bytes>, t: Traffic, e: Event)
    requires WellFormed(config, assets) && TrafficOk(p, config, assets, creds, t) && Brings(p, config, creds, e)
    ensures TrafficOk(p, config, assets, creds, Happen(p, env, t, e))
  {
    match e
    case Receive(r) =>
    case Proceed(n) => if n < |t.requests| { AdvancedOk(p, env, config, assets, creds, t.world, t.requests[n]); }
    case Elsewhere(a) =>
      StepOk(p, config, assets, creds, t.world, a);
      forall n | 0 <= n < |t.requests| ensures RequestOk(p, config, creds, Step(p, t.world, a).orb, t.requests[n]) {
        RequestStaysOk(p, config, creds, t.world.orb, Step(p, t.world, a).orb, t.requests[n]);
      }
  }

  lemma {:induction false} CourseOk(p: Primitives, env: Session, config: SecurityConfig, assets: LoadedAssets, creds: iset<Bytes>, t: Traffic, events: seq<Event>)
    requires WellFormed(config, assets) && TrafficOk(p, config, assets, creds, t)
    requires forall i :: 0 <= i < |events| ==> Brings(p, config, creds, events[i])
    ensures TrafficOk(p, config, assets, creds, Course(p, env, t, events))
    decreases |events|
  {
    if events != [] {
      HappenOk(p, env, config, assets, creds, t, events[0]);
      CourseOk(p, env, config, assets, creds, Happen(p, env, t, events[0]), events[1..]);
    }
  }

  /** No request reaches the accessor that panics, however requests and attempts overlap. */
  ghost predicate NeverCrashes(p: Primitives, env: Session, config: SecurityConfig, assets: LoadedAssets) {
    forall chain, events, n :: 0 <= n < |Course(p, env, Opening(config, assets, chain), events).requests| ==>
      Course(p, env, Opening(config, assets, chain), events).requests[n] != Crashed
  }

  lemma NeverCrashesIff(p: Primitives, env: Session, config: SecurityConfig, assets: LoadedAssets)
    requires FromLoader(config, assets)
    ensures NeverCrashes(p, env, config, assets) <==> WellFormed(config, assets)
  {
    if WellFormed(config, assets) {
      var creds := iset m: Bytes | |m| >= 0;
      forall chain, events, n | 0 <= n < |Course(p, env, Opening(config, assets, chain), events).requests|
        ensures Course(p, env, Opening(config, assets, chain), events).requests[n] != Crashed
      {
        CourseOk(p, env, config, assets, creds, Opening(config, assets, chain), events);
      }
    } else {
      ListingCrashes(p, env, config, assets);
      assert Course(p, env, Opening(config, assets, map[]), [Receive(ToolsList), Proceed(0), Proceed(0)]).requests[0] == Crashed;
    }
  }

  lemma ListingCrashes(p: Primitives, env: Session, config: SecurityConfig, assets: LoadedAssets)
    requires FromLoader(config, assets) && !WellFormed(config, assets)
    ensures Course(p, env, Opening(config, assets, map[]), [Receive(ToolsList), Proceed(0), Proceed(0)]).requests == [Crashed]
  {
    var w := Launch(config, assets, map[]);
    var events := [Receive(ToolsList), Proceed(0), Proceed(0)];
    assert events[1..] == [Proceed(0), Proceed(0)] && events[1..][1..] == [Proceed(0)] && [Proceed(0)][1..] == [];
    assert Happen(p, env, Traffic(w, []), Receive(ToolsList)) == Traffic(w, [Arrived(ToolsList)]);
    assert Happen(p, env, Traffic(w, [Arrived(ToolsList)]), Proceed(0)) == Traffic(w, [Cleared(ToolsList)]);
    assert Happen(p, env, Traffic(w, [Cleared(ToolsList)]), Proceed(0)) == Traffic(w, [Crashed]);
  }

  // ---------------------------------------------------------------- no key, no contents

  /** The response is made without looking at documents, chunks or indexes. */
  predicate Withheld(r: Response) {
    !(r.OpenTools? || r.SearchAnswer? || r.Resources? || r.Contents? || r.DocumentNotFound? || r.InvalidUri?)
  }

  predicate AllWithheld(requests: seq<Pending>) {
    forall n :: 0 <= n < |requests| ==> !requests[n].Cleared? && (requests[n].Answered? ==> Withheld(requests[n].response))
  }

  lemma {:induction false} ClosedCourse(p: Primitives, env: Session, config: SecurityConfig, assets: LoadedAssets, creds: iset<Bytes>, t: Traffic, events: seq<Event>)
    requires WellFormed(config, assets) && TrafficOk(p, config, assets, creds, t) && AllWithheld(t.requests)
    requires config.password.Some? && forall m :: m in creds ==> !Accepts(p, config, assets, m)
    requires forall i :: 0 <= i < |events| ==> Brings(p, config, creds, events[i])
    ensures var v := Course(p, env, t, events); !IsUnlocked(v.world.orb) && AllWithheld(v.requests)
    decreases |events|
  {
    if events != [] {
      HappenOk(p, env, config, assets, creds, t, events[0]);
      assert !IsUnlocked(t.world.orb);
      ClosedCourse(p, env, config, assets, creds, Happen(p, env, t, events[0]), events[1..]);
    }
  }

  /** However requests and attempts overlap, without an accepted key among all that is presented the Orb stays locked and
      no answer looks at its contents. */
  lemma NoKeyNoContents(p: Primitives, env: Session, config: SecurityConfig, assets: LoadedAssets, creds: iset<Bytes>, chain: Keychain, events: seq<Event>)
    requires WellFormed(config, assets) && config.password.Some? && ChainOk(config, chain, creds)
    requires forall m :: m in creds ==> !Accepts(p, config, assets, m)
    requires forall i :: 0 <= i < |events| ==> Brings(p, config, creds, events[i])
    ensures var v := Course(p, env, Opening(config, assets, chain), events); !IsUnlocked(v.world.orb) && AllWithheld(v.requests)
  {
    ClosedCourse(p, env, config, assets, creds, Opening(config, assets, chain), events);
  }

  // ---------------------------------------------------------------- one request at a time

  function Elsewheres(acts: seq<Action>): seq<Event> {
    if acts == [] then [] else [Elsewhere(acts[0])] + Elsewheres(acts[1..])
  }

  lemma Turn(p: Primitives, env: Session, t: Traffic, e: Event, rest: seq<Event>)
    ensures Course(p, env, t, [e] + rest) == Course(p, env, Happen(p, env, t, e), rest)
  {
    assert ([e] + rest)[1..] == rest;
  }

  lemma {:induction false} CourseConcat(p: Primitives, env: Session, t: Traffic, xs: seq<Event>, ys: seq<Event>)
    ensures Course(p, env, t, xs + ys) == Course(p, env, Course(p, env, t, xs), ys)
    decreases |xs|
  {
    if xs == [] {
      assert xs + ys == ys;
    } else {
      assert (xs + ys)[1..] == xs[1..] + ys;
      CourseConcat(p, env, Happen(p, env, t, xs[0]), xs[1..], ys);
    }
  }

  lemma {:induction false} CourseElsewhere(p: Primitives, env: Session, t: Traffic, acts: seq<Action>)
    ensures Course(p, env, t, Elsewheres(acts)) == Traffic(Exec(p, t.world, acts), t.requests)
    decreases |acts|
  {
    if acts != [] {
      Turn(p, env, t, Elsewhere(acts[0]), Elsewheres(acts[1..]));
      CourseElsewhere(p, env, t.(world := Step(p, t.world, acts[0])), acts[1..]);
    }
  }

  lemma {:induction false} NobodyRuns(p: Primitives, w: World, available: bool, n: nat)
    requires w.attempts == []
    ensures Exec(p, w, Repeat(Run(0, available), n)) == w
  {
    if n > 0 {
      assert Repeat(Run(0, available), n)[1..] == Repeat(Run(0, available), n - 1);
      NobodyRuns(p, w, available, n - 1);
    }
  }

  /** A request that nothing interrupts, its unlock attempt run to the end. */
  function Alone(r: Request, available: bool): seq<Event> {
    ([Receive(r)] + [Proceed(0)]) + (Elsewheres(Repeat(Run(0, available), 9)) + ([Proceed(0)] + [Proceed(0)]))
  }

  lemma TwoTurns(p: Primitives, env: Session, t: Traffic, d: Event, e: Event)
    ensures Course(p, env, t, [d] + [e]) == Happen(p, env, Happen(p, env, t, d), e)
  {
    Turn(p, env, t, d, [e]);
    assert [e] + [] == [e];
    Turn(p, env, Happen(p, env, t, d), e, []);
  }

  /** Then it is answered as the handler answers it, and leaves what the handler leaves. */
  lemma AloneIsHandle(p: Primitives, env: Session, orb: Orb, chain: Keychain, r: Request, available: bool)
    ensures var o := Handle(p, env, orb, chain, r, available);
            var v := Course(p, env, Traffic(World(orb, chain, []), []), Alone(r, available));
            if o.Panicked? then v.requests == [Crashed]
            else v.requests == [Answered(o.response)] && v.world.orb == o.orb && v.world.chain == o.chain
  {
    var t := Traffic(World(orb, chain, []), []);
    var runs := Repeat(Run(0, available), 9);
    var last := [Proceed(0)] + [Proceed(0)];
    var (w, at) := Advanced(p, env, t.world, Arrived(r));
    CourseConcat(p, env, t, [Receive(r)] + [Proceed(0)], Elsewheres(runs) + last);
    TwoTurns(p, env, t, Receive(r), Proceed(0));
    assert Happen(p, env, Happen(p, env, t, Receive(r)), Proceed(0)) == Traffic(w, [at]);
    CourseConcat(p, env, Traffic(w, [at]), Elsewheres(runs), last);
    CourseElsewhere(p, env, Traffic(w, [at]), runs);
    TwoTurns(p, env, Traffic(Exec(p, w, runs), [at]), Proceed(0), Proceed(0));
    RunsAlone(p, env, orb, chain, r, available);
  }

  /** What the attempt of the request, if it makes one, leaves behind, and the two steps after it. */
  lemma RunsAlone(p: Primitives, env: Session, orb: Orb, chain: Keychain, r: Request, available: bool)
    ensures var (w, at) := Advanced(p, env, World(orb, chain, []), Arrived(r));
            var v := Exec(p, w, Repeat(Run(0, available), 9));
            var next := Advanced(p, env, v, Advanced(p, env, v, at).1).1;
            var o := Handle(p, env, orb, chain, r, available);
            && Advanced(p, env, v, at).0 == v && Advanced(p, env, v, Advanced(p, env, v, at).1).0 == v
            && if o.Panicked? then next == Crashed else next == Answered(o.response) && v.orb == o.orb && v.chain == o.chain
  {
    if r.CallUnlock? && !IsUnlocked(orb) {
      UnlockAlone(p, orb, chain, r.password, available);
    } else if r.CallSearch? && !IsUnlocked(orb) {
      SearchAlone(p, orb, chain, available);
    } else {
      NobodyRuns(p, World(orb, chain, []), available, 9);
    }
  }

  lemma UnlockAlone(p: Primitives, orb: Orb, chain: Keychain, password: string, available: bool)
    ensures var v := Exec(p, Step(p, World(orb, chain, []), Enter(password)), Repeat(Run(0, available), 9));
            var (orb', chain', error) := PerformUnlock(p, orb, chain, password, available);
            v == World(orb', chain', [Done(error)])
  {
    PerformIsSolo(p, orb, chain, password, available);
    SoloIsARun(p, orb, chain, Entered(password), available, 9);
    assert [] + [Entered(password)] == [Entered(password)];
  }

  lemma SearchAlone(p: Primitives, orb: Orb, chain: Keychain, available: bool)
    ensures var v := Exec(p, Step(p, World(orb, chain, []), TryAuto), Repeat(Run(0, available), 9));
            var (orb', chain') := TryAutoUnlock(p, orb, chain, available);
            v.orb == orb' && v.chain == chain' && |v.attempts| == 1 && v.attempts[0].Done?
  {
    AutoIsSolo(p, orb, chain, available);
    SoloIsARun(p, orb, chain, Recalling, available, 9);
    assert [] + [Recalling] == [Recalling];
  }
}
