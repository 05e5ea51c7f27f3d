/** The promises of the gateway, for every run from every registry. */
module GatewayTheorems {
  import opened Wrappers
  import opened Gateway
  import opened GatewaySafety

  // ---------------------------------------------------------------- replies

  /** A caller only ever receives a reply with its own id from its own child, at most once, and no other caller can. */
  lemma RepliesCorrelate(orbs: seq<string>, acts: seq<Action>)
    ensures Correlated(Exec(Init(orbs), acts).waiters)
  {
    InitInv(orbs);
    RunInv(Init(orbs), acts);
    InvCorrelates(Exec(Init(orbs), acts));
  }

  predicate Correlated(waiters: seq<Waiter>) {
    && (forall k: nat :: k < |waiters| ==> |waiters[k].inbox| <= 1)
    && (forall k: nat, n: nat :: k < |waiters| && n < |waiters[k].inbox| ==>
          waiters[k].inbox[n].child == waiters[k].child && waiters[k].inbox[n].id == waiters[k].id)
    && (forall j: nat, k: nat :: j < k < |waiters| && waiters[j].child == waiters[k].child ==> waiters[j].id != waiters[k].id)
  }

  lemma InvCorrelates(w: World)
    requires Channels(w.waiters, w.tables, w.clock)
    ensures Correlated(w.waiters)
  {
    assert forall k: nat :: k < |w.waiters| ==> ChannelOk(w.waiters[k], w.tables, w.clock);
  }

  /** The ids given to a child split into pending, taken by the reader, never registered, and the one being written. */
  lemma IdsConserved(orbs: seq<string>, acts: seq<Action>, c: nat)
    requires c < |Exec(Init(orbs), acts).tables|
    ensures var w := Exec(Init(orbs), acts);
            var t := w.tables[c];
            var unregistered := if Unregistered(w.writing, c).Some? then {Unregistered(w.writing, c).value} else {};
            && (forall i: nat :: i < t.issued <==> i in t.pending.Keys + t.taken + t.lost + unregistered)
            && t.pending.Keys !! t.taken !! t.lost !! unregistered
            && (forall s :: EntryHolds(w.processes, s, c) ==> w.processes[s].proc.nextId == t.issued)
  {
    InitInv(orbs);
    RunInv(Init(orbs), acts);
    var w := Exec(Init(orbs), acts);
    assert IdsSplit(w.tables[c], Unregistered(w.writing, c));
  }

  /** Registering a waiter never overwrites a pending entry, and gives the id to nobody who had it. */
  lemma RegisterIsFresh(w: World)
    requires Inv(w) && w.writing.Some?
    ensures var f := w.writing.value;
            && f.id !in w.tables[f.child].pending
            && f.id !in w.tables[f.child].taken
            && (forall k: nat :: k < |w.waiters| ==> w.waiters[k].child != f.child || w.waiters[k].id != f.id)
  {}

  /** A reply that overtakes the registration of its waiter is dropped: the order write, register does not promise delivery. */
  lemma EarlyReplyDropped(w: World, body: string)
    requires Inv(w) && w.writing.Some?
    ensures Step(w, ReadLine(w.writing.value.child, Response(w.writing.value.id, body))) == w
  {}

  /** Waiter `k` waits for this id of this child, its caller has not given up, and the reader has not served the id yet. */
  predicate Expects(w: World, k: nat, c: nat, id: nat) {
    k < |w.waiters| && c < |w.tables| && w.waiters[k].child == c && w.waiters[k].id == id && w.waiters[k].listening && id !in w.tables[c].taken
  }

  /** A reply reaches somebody, and then only the one it is for, if and only if its id was not served yet and a caller listens for it. */
  lemma DeliveredIff(w: World, c: nat, id: nat, body: string, k: nat)
    requires Inv(w) && k < |w.waiters|
    ensures var v := Step(w, ReadLine(c, Response(id, body)));
            v.waiters[k].inbox == if Expects(w, k, c, id) then w.waiters[k].inbox + [Reply(c, id, body)] else w.waiters[k].inbox
  {
    if Expects(w, k, c, id) {
      assert ChannelOk(w.waiters[k], w.tables, w.clock);
    }
  }

  predicate Answers(a: Action, c: nat, id: nat) {
    a.ReadLine? && a.child == c && a.line.Response? && a.line.id == id
  }

  /** The first answer to this id that is read before its caller gives up. */
  function Answer(acts: seq<Action>, k: nat, c: nat, id: nat): Option<string>
    decreases |acts|
  {
    if acts == [] || acts[0] == GiveUp(k) then None
    else if Answers(acts[0], c, id) then Some(acts[0].line.body)
    else Answer(acts[1..], k, c, id)
  }

  predicate AnswersOrGivesUp(a: Action, k: nat, c: nat, id: nat) {
    a == GiveUp(k) || Answers(a, c, id)
  }

  /** Every other step leaves the caller waiting. */
  lemma StillExpects(w: World, a: Action, k: nat, c: nat, id: nat)
    requires Inv(w) && Expects(w, k, c, id) && !AnswersOrGivesUp(a, k, c, id)
    ensures Expects(Step(w, a), k, c, id) && Step(w, a).waiters[k].inbox == w.waiters[k].inbox
  {
    if a.ReadLine? {
      AnotherAnswer(w, a.child, a.line, k, c, id);
    } else {
      NoAnswer(w, a, k, c, id);
    }
  }

  lemma AnotherAnswer(w: World, b: nat, line: Line, k: nat, c: nat, id: nat)
    requires Inv(w) && Expects(w, k, c, id) && !AnswersOrGivesUp(ReadLine(b, line), k, c, id)
    ensures var v := Step(w, ReadLine(b, line)); Expects(v, k, c, id) && v.waiters[k].inbox == w.waiters[k].inbox
  {
    if line.Response? && b < |w.tables| && line.id in w.tables[b].pending {
      assert w.tables[b].pending[line.id] != k;
    }
  }

  lemma NoAnswer(w: World, a: Action, k: nat, c: nat, id: nat)
    requires Expects(w, k, c, id) && !a.ReadLine? && a != GiveUp(k)
    ensures Expects(Step(w, a), k, c, id) && Step(w, a).waiters[k].inbox == w.waiters[k].inbox
  {}

  /** Once served or given up a channel stays as it is. */
  lemma ClosedStays(w: World, a: Action, k: nat)
    requires Inv(w) && k < |w.waiters| && !Expects(w, k, w.waiters[k].child, w.waiters[k].id)
    ensures var v := Step(w, a);
            && k < |v.waiters| && v.waiters[k].inbox == w.waiters[k].inbox
            && !Expects(v, k, v.waiters[k].child, v.waiters[k].id)
  {
    assert ChannelOk(w.waiters[k], w.tables, w.clock);
    if a.ReadLine? {
      ClosedTakesNothing(w, a.child, a.line, k);
    } else {
      OthersLeaveInboxes(w, a, k);
    }
    StepGrows(w, a);
  }

  lemma ClosedTakesNothing(w: World, c: nat, line: Line, k: nat)
    requires Inv(w) && k < |w.waiters| && !Expects(w, k, w.waiters[k].child, w.waiters[k].id)
    ensures var v := Step(w, ReadLine(c, line)); k < |v.waiters| && v.waiters[k].inbox == w.waiters[k].inbox
  {
    if line.Response? {
      DeliveredIff(w, c, line.id, line.body, k);
    }
  }

  lemma OthersLeaveInboxes(w: World, a: Action, k: nat)
    requires k < |w.waiters| && !a.ReadLine?
    ensures var v := Step(w, a); k < |v.waiters| && v.waiters[k].inbox == w.waiters[k].inbox
  {}

  lemma {:induction false} ClosedForGood(w: World, acts: seq<Action>, k: nat)
    requires Inv(w) && k < |w.waiters| && !Expects(w, k, w.waiters[k].child, w.waiters[k].id)
    ensures k < |Exec(w, acts).waiters| && Exec(w, acts).waiters[k].inbox == w.waiters[k].inbox
    decreases |acts|
  {
    if acts != [] {
      StepInv(w, acts[0]);
      ClosedStays(w, acts[0], k);
      ClosedForGood(Step(w, acts[0]), acts[1..], k);
    }
  }

  /**
   Over every run, a caller that is registered and listens gets exactly the first answer to its id
   that is read before it gives up, and nothing if there is none.
   */
  lemma {:induction false} ReplyReachesIff(w: World, acts: seq<Action>, k: nat, c: nat, id: nat)
    requires Inv(w) && Expects(w, k, c, id)
    ensures var v := Exec(w, acts);
            k < |v.waiters| && v.waiters[k].inbox == match Answer(acts, k, c, id) case None => [] case Some(body) => [Reply(c, id, body)]
    decreases |acts|
  {
    assert ChannelOk(w.waiters[k], w.tables, w.clock);
    if acts != [] {
      var v := Step(w, acts[0]);
      StepInv(w, acts[0]);
      if AnswersOrGivesUp(acts[0], k, c, id) {
        Settles(w, acts[0], k, c, id);
        ClosedForGood(v, acts[1..], k);
      } else {
        StillExpects(w, acts[0], k, c, id);
        ReplyReachesIff(v, acts[1..], k, c, id);
      }
    }
  }

  lemma Settles(w: World, a: Action, k: nat, c: nat, id: nat)
    requires Inv(w) && Expects(w, k, c, id) && AnswersOrGivesUp(a, k, c, id)
    ensures var v := Step(w, a);
            && k < |v.waiters| && !Expects(v, k, v.waiters[k].child, v.waiters[k].id)
            && v.waiters[k].inbox == if a.ReadLine? then [Reply(c, id, a.line.body)] else []
  {
    assert ChannelOk(w.waiters[k], w.tables, w.clock);
    if a.ReadLine? {
      assert id in w.tables[c].pending;
      assert w.tables[c].pending[id] == k;
      assert Step(w, a) == DeliverStep(w, c, id, a.line.body);
    }
  }

  /** Registration is what makes a caller expect its reply, so an answer read before it is lost and one read after it is not. */
  lemma RegisteredExpects(w: World)
    requires Inv(w) && w.writing.Some?
    ensures Expects(Step(w, RegisterWaiter), |w.waiters|, w.writing.value.child, w.writing.value.id)
  {}

  /** What later steps may do to a channel: fill it, start its timer, close it. */
  predicate ChannelGrows(v: Waiter, v': Waiter) {
    && v'.child == v.child && v'.id == v.id && v'.wroteAt == v.wroteAt
    && v.inbox <= v'.inbox
    && (v.timer.Some? ==> v'.timer == v.timer)
    && (!v.listening ==> !v'.listening && v'.inbox == v.inbox)
  }

  predicate WorldGrows(w: World, v: World) {
    && |w.waiters| <= |v.waiters| && (forall k: nat :: k < |w.waiters| ==> ChannelGrows(w.waiters[k], v.waiters[k]))
    && |w.tables| <= |v.tables|
    && (forall c: nat :: c < |w.tables| ==>
          w.tables[c].issued <= v.tables[c].issued && w.tables[c].taken <= v.tables[c].taken && w.tables[c].lost <= v.tables[c].lost)
    && w.killed <= v.killed && w.clock <= v.clock
  }

  lemma SpawnGrows(w: World, a: Action)
    requires a.EnsureCheck? || a.LaunchChild? || a.HandshakeDone? || a.HandshakeFailed? || a.InsertResult? || a.Abandon?
    ensures WorldGrows(w, Step(w, a))
  {}

  lemma RequestGrows(w: World, a: Action)
    requires a.WriteRequest? || a.WriteFailed? || a.RegisterWaiter? || a.ReadLine?
    ensures WorldGrows(w, Step(w, a))
  {}

  lemma StepGrows(w: World, a: Action)
    ensures WorldGrows(w, Step(w, a))
  {
    if a.EnsureCheck? || a.LaunchChild? || a.HandshakeDone? || a.HandshakeFailed? || a.InsertResult? || a.Abandon? {
      SpawnGrows(w, a);
    } else if a.WriteRequest? || a.WriteFailed? || a.RegisterWaiter? || a.ReadLine? {
      RequestGrows(w, a);
    }
  }

  /** Over any run nothing delivered is taken back, no closed channel is filled, no id is given twice, no killed child returns. */
  lemma {:induction false} RunGrows(w: World, acts: seq<Action>)
    ensures WorldGrows(w, Exec(w, acts))
    decreases |acts|
  {
    if acts != [] {
      StepGrows(w, acts[0]);
      RunGrows(Step(w, acts[0]), acts[1..]);
    }
  }

  // ---------------------------------------------------------------- children

  /** Each child ever launched is killed, or held by exactly one entry, or by exactly one spawn in flight. */
  lemma ChildrenConserved(orbs: seq<string>, acts: seq<Action>, c: nat)
    requires c < |Exec(Init(orbs), acts).tables|
    ensures var w := Exec(Init(orbs), acts);
            && (c !in w.killed <==> IsHeld(w.processes, w.tasks, c))
            && (forall r, s :: EntryHolds(w.processes, r, c) && EntryHolds(w.processes, s, c) ==> r == s)
            && (forall t: nat, u: nat :: SpawnHolds(w.tasks, t, c) && SpawnHolds(w.tasks, u, c) ==> t == u)
            && (forall s, t: nat :: !(EntryHolds(w.processes, s, c) && SpawnHolds(w.tasks, t, c)))
  {
    InitInv(orbs);
    RunInv(Init(orbs), acts);
  }

  /** Nobody is published unanswered: a running child, and one ready to be published, has answered its handshake in this run. */
  lemma PublishedHaveAnswered(orbs: seq<string>, acts: seq<Action>, c: nat)
    requires var w := Exec(Init(orbs), acts);
             || (exists s :: EntryHolds(w.processes, s, c))
             || (exists t: nat :: t < |w.tasks| && w.tasks[t].Ready? && w.tasks[t].proc.child == c)
    ensures exists i :: 0 <= i < |acts| && Answers(acts[i], c, 0)
  {
    InitInv(orbs);
    RunInv(Init(orbs), acts);
    TakenWasRead(Init(orbs), acts, c, 0);
  }

  predicate Taken(w: World, c: nat, id: nat) {
    c < |w.tables| && id in w.tables[c].taken
  }

  lemma {:induction false} TakenWasRead(w: World, acts: seq<Action>, c: nat, id: nat)
    requires Taken(Exec(w, acts), c, id) && !Taken(w, c, id)
    ensures exists i :: 0 <= i < |acts| && Answers(acts[i], c, id)
    decreases |acts|
  {
    var v := Step(w, acts[0]);
    if Taken(v, c, id) {
      assert Answers(acts[0], c, id);
    } else {
      TakenWasRead(v, acts[1..], c, id);
      var i :| 0 <= i < |acts| - 1 && Answers(acts[1..][i], c, id);
      assert Answers(acts[i + 1], c, id);
    }
  }

  /** Why a Running entry may end: it is killed, overdue, not listed exactly once, or everything shuts down. */
  predicate EndsEntry(w: World, a: Action, s: string)
    requires IsRunning(w.processes, s)
  {
    match a
    case Kill(slug) => slug == s
    case Reap(idle) => Overdue(w.processes[s], w.clock, idle)
    case Refresh(found) => Occurrences(found, s) != 1
    case Shutdown => true
    case _ => false
  }

  /** Steps that are not under the lock of the whole map leave a Running entry's child in place. */
  lemma QuietKeepsEntry(w: World, a: Action, s: string)
    requires IsRunning(w.processes, s) && (w.writing.Some? || !(a.Kill? || a.Reap? || a.Refresh? || a.Shutdown?))
    ensures EntryHolds(Step(w, a).processes, s, w.processes[s].proc.child)
  {}

  lemma EntryEndsIff(w: World, a: Action, s: string)
    requires IsRunning(w.processes, s) && w.writing.None? && (a.Kill? || a.Reap? || a.Refresh? || a.Shutdown?)
    ensures EntryHolds(Step(w, a).processes, s, w.processes[s].proc.child) <==> !EndsEntry(w, a, s)
  {
    if a.Refresh? {
      RefreshExactly(a.found, w.processes);
      OccursIffIn(a.found, s);
    }
  }

  lemma EndedIsKilled(w: World, a: Action, s: string)
    requires HeldOnce(w.processes, w.tasks, |w.tables|, w.killed)
    requires IsRunning(w.processes, s) && w.writing.None? && (a.Kill? || a.Reap? || a.Refresh? || a.Shutdown?) && EndsEntry(w, a, s)
    ensures w.processes[s].proc.child in Step(w, a).killed
  {
    var c := w.processes[s].proc.child;
    assert c in RunningChildren(w.processes);
    match a
    case Refresh(found) =>
      RefreshExactly(found, w.processes);
      var kept := Reconcile(found, w.processes, map[]);
      assert c !in RunningChildren(kept);
    case _ =>
  }

  /**
   A Running entry keeps its child through every step but those four, however many spawns of the
   same Orb finish or fail meanwhile, and each of the four kills the child it lets go of.
   */
  lemma RunningEndsOnlyWhen(w: World, a: Action, s: string)
    requires Inv(w) && IsRunning(w.processes, s)
    ensures var v := Step(w, a);
            var c := w.processes[s].proc.child;
            && (EntryHolds(v.processes, s, c) <==> w.writing.Some? || !EndsEntry(w, a, s))
            && (EntryHolds(v.processes, s, c) <==> c !in v.killed)
  {
    StepInv(w, a);
    var c := w.processes[s].proc.child;
    if w.writing.None? && (a.Kill? || a.Reap? || a.Refresh? || a.Shutdown?) {
      EntryEndsIff(w, a, s);
      if EndsEntry(w, a, s) {
        EndedIsKilled(w, a, s);
      } else {
        HeldIsAlive(Step(w, a), s, c);
      }
    } else {
      QuietKeepsEntry(w, a, s);
      HeldIsAlive(Step(w, a), s, c);
    }
  }

  lemma HeldIsAlive(w: World, s: string, c: nat)
    requires Inv(w) && EntryHolds(w.processes, s, c)
    ensures c !in w.killed
  {}

  /** A shutdown kills every child that is not still being spawned, and no other. */
  lemma ShutdownKillsIff(w: World, c: nat)
    requires Inv(w) && w.writing.None? && c < |w.tables|
    ensures var v := Step(w, Shutdown);
            && (c in v.killed <==> forall t: nat :: !SpawnHolds(v.tasks, t, c))
            && forall s :: !IsRunning(v.processes, s)
  {
    var v := Step(w, Shutdown);
    StepInv(w, Shutdown);
    if c !in v.killed {
      assert IsHeld(v.processes, v.tasks, c);
    }
  }

  /** Such a child is running again as soon as its spawn is published. */
  lemma SpawnOutlivesShutdown(w: World, t: nat)
    requires w.writing.None? && t < |w.tasks| && w.tasks[t].Ready?
    ensures EntryHolds(Step(Step(w, Shutdown), InsertResult(t)).processes, w.tasks[t].slug, w.tasks[t].proc.child)
  {}

  // ---------------------------------------------------------------- the registry

  /** In every reachable world each listed Orb has an entry. */
  lemma ListedAlwaysHaveEntries(orbs: seq<string>, acts: seq<Action>, s: string)
    requires s in Exec(Init(orbs), acts).orbs
    ensures s in Exec(Init(orbs), acts).processes
  {
    InitInv(orbs);
    RunInv(Init(orbs), acts);
  }

  predicate OnlyListed(w: World) {
    forall s :: s in w.processes ==> s in w.orbs
  }

  /** A kill of an unlisted name, and a spawn that ends for an Orb a refresh has dropped meanwhile. */
  predicate AddsUnlisted(w: World, a: Action) {
    w.writing.None? &&
    match a
    case Kill(slug) => slug !in w.orbs
    case InsertResult(t) => t < |w.tasks| && (w.tasks[t].Ready? || w.tasks[t].Broken?) && w.tasks[t].slug !in w.orbs
    case _ => false
  }

  /** The converse, that every entry is a listed Orb's, survives a step if and only if it is neither of the two. */
  lemma OnlyListedIff(w: World, a: Action)
    requires Inv(w) && OnlyListed(w)
    ensures OnlyListed(Step(w, a)) <==> !AddsUnlisted(w, a)
  {
    match a
    case Kill(slug) => assert w.writing.None? ==> slug in Step(w, a).processes;
    case InsertResult(t) => assert AddsUnlisted(w, a) ==> w.tasks[t].slug in Step(w, a).processes;
    case Refresh(found) => RefreshExactly(found, w.processes);
    case _ =>
  }

  /** `kill` makes an entry for any name it is given. */
  lemma UnlistedEntryExists()
    ensures var w := Exec(Init([]), [Kill("ghost")]); "ghost" in w.processes && "ghost" !in w.orbs
  {}

  ghost predicate AlwaysListed(w: World, acts: seq<Action>)
    decreases |acts|
  {
    OnlyListed(w) && (acts != [] ==> AlwaysListed(Step(w, acts[0]), acts[1..]))
  }

  ghost predicate NeverAdds(w: World, acts: seq<Action>)
    decreases |acts|
  {
    acts != [] ==> !AddsUnlisted(w, acts[0]) && NeverAdds(Step(w, acts[0]), acts[1..])
  }

  lemma {:induction false} AlwaysListedIff(w: World, acts: seq<Action>)
    requires Inv(w) && OnlyListed(w)
    ensures AlwaysListed(w, acts) <==> NeverAdds(w, acts)
    decreases |acts|
  {
    if acts != [] {
      OnlyListedIff(w, acts[0]);
      StepInv(w, acts[0]);
      if !AddsUnlisted(w, acts[0]) {
        AlwaysListedIff(Step(w, acts[0]), acts[1..]);
      }
    }
  }

  /** A refresh restores it, whatever was there. */
  lemma RefreshLists(w: World, found: seq<string>)
    requires w.writing.None?
    ensures OnlyListed(Step(w, Refresh(found)))
  {
    RefreshExactly(found, w.processes);
  }

  /** What a spawn in flight publishes after a refresh that dropped its Orb: a running child under an unlisted name. */
  lemma SpawnOutlivesRefresh(w: World, t: nat, found: seq<string>)
    requires w.writing.None? && t < |w.tasks| && w.tasks[t].Ready? && w.tasks[t].slug !in found
    ensures var v := Step(Step(w, Refresh(found)), InsertResult(t));
            EntryHolds(v.processes, w.tasks[t].slug, w.tasks[t].proc.child) && w.tasks[t].slug !in v.orbs
  {
    RefreshExactly(found, w.processes);
  }

  // ---------------------------------------------------------------- the reaper

  const RESPONSE_TIMEOUT: nat := 60
  const DEFAULT_IDLE_TIMEOUT: nat := 300

  /** A caller that still listens, has no reply, and whose 60 s are not over. */
  predicate Awaiting(v: Waiter, clock: nat) {
    v.listening && v.inbox == [] && (v.timer.Some? ==> clock <= v.timer.value + RESPONSE_TIMEOUT)
  }

  /** A caller still waiting started its timer, or can still start it, within `slack` of its write. */
  predicate Prompt(v: Waiter, clock: nat, slack: nat) {
    v.listening && v.inbox == [] ==> (if v.timer.Some? then v.timer.value else clock) <= v.wroteAt + slack
  }

  /** No reap at `w` takes a child from under a live request. */
  predicate ReapSpares(w: World, idleTimeout: nat) {
    forall k: nat :: k < |w.waiters| && w.waiters[k].child in OverdueChildren(w.processes, w.clock, idleTimeout) ==>
      !Awaiting(w.waiters[k], w.clock)
  }

  predicate AllPrompt(w: World, slack: nat) {
    forall k: nat :: k < |w.waiters| ==> Prompt(w.waiters[k], w.clock, slack)
  }

  ghost predicate ReaperIsSafe(idleTimeout: nat, slack: nat) {
    forall orbs, acts :: AllPrompt(Exec(Init(orbs), acts), slack) ==> ReapSpares(Exec(Init(orbs), acts), idleTimeout)
  }

  lemma ReapSparesPrompt(w: World, idleTimeout: nat, slack: nat)
    requires Inv(w) && AllPrompt(w, slack) && idleTimeout >= slack + RESPONSE_TIMEOUT
    ensures ReapSpares(w, idleTimeout)
  {}

  lemma {:induction false} ExecAppend(w: World, acts: seq<Action>, a: Action)
    ensures Exec(w, acts + [a]) == Step(Exec(w, acts), a)
    decreases |acts|
  {
    if acts == [] {
      assert Exec(Step(w, a), []) == Step(w, a);
      assert (acts + [a])[1..] == [];
    } else {
      assert (acts + [a])[1..] == acts[1..] + [a];
      ExecAppend(Step(w, acts[0]), acts[1..], a);
    }
  }

  /** A run that starts one child and writes one request to it at time 0. */
  const ONE_REQUEST: seq<Action> :=
    [EnsureCheck("s"), LaunchChild(0, true), ReadLine(0, Response(0, "")), HandshakeDone(0), InsertResult(0),
     WriteRequest("s"), RegisterWaiter]

  function OneRequestWorld(): World {
    World(["s"], map["s" := Running(OrbProcess(0, 0, 2))], [Table(map[1 := 1], 2, {0}, {})], [Finished],
          [Waiter(0, 0, 0, None, true, [Reply(0, 0, "")]), Waiter(0, 1, 0, None, true, [])], {}, None, 0)
  }

  /** The same run after its child answered the handshake. */
  function Shaken(): World {
    World(["s"], map["s" := Idle], [Table(map[], 1, {0}, {})], [Handshaking("s", 0, 0)],
          [Waiter(0, 0, 0, None, true, [Reply(0, 0, "")])], {}, None, 0)
  }

  lemma HandshakeRuns()
    ensures var w := Step(Init(["s"]), EnsureCheck("s"));
            Step(Step(w, LaunchChild(0, true)), ReadLine(0, Response(0, ""))) == Shaken()
  {
    var w1 := Step(Init(["s"]), EnsureCheck("s"));
    assert w1 == Init(["s"]).(tasks := [Checked("s")]);
    var w2 := Step(w1, LaunchChild(0, true));
    assert w2 == w1.(tables := [Table(map[0 := 0], 1, {}, {})], waiters := [Waiter(0, 0, 0, None, true, [])], tasks := [Handshaking("s", 0, 0)]);
    var w3 := Step(w2, ReadLine(0, Response(0, "")));
    assert w3 == DeliverStep(w2, 0, 0, "");
    ShakenTable(w3.tables[0]);
    assert w3.tables == [w3.tables[0]];
    assert w3.waiters[0] == Waiter(0, 0, 0, None, true, [Reply(0, 0, "")]);
    assert w3.waiters == [w3.waiters[0]];
  }

  lemma ShakenTable(t: Table)
    requires t.pending == map[0 := 0] - {0} && t.taken == {} + {0} && t.lost == {} && t.issued == 1
    ensures t == Table(map[], 1, {0}, {})
  {
    assert t.pending == map[];
    assert t.taken == {0};
  }

  lemma RequestRuns()
    ensures Step(Step(Step(Step(Shaken(), HandshakeDone(0)), InsertResult(0)), WriteRequest("s")), RegisterWaiter) == OneRequestWorld()
  {
    var w4 := Step(Shaken(), HandshakeDone(0));
    assert w4 == Shaken().(tasks := [Ready("s", OrbProcess(0, 0, 1))]);
    var w5 := Step(w4, InsertResult(0));
    assert w5 == w4.(tasks := [Finished], processes := map["s" := Running(OrbProcess(0, 0, 1))]);
    var w6 := Step(w5, WriteRequest("s"));
    assert w6 == w5.(processes := map["s" := Running(OrbProcess(0, 0, 2))], tables := [Table(map[], 2, {0}, {})], writing := Some(Forward("s", 0, 1)));
    var w7 := Step(w6, RegisterWaiter);
    assert w7.waiters == OneRequestWorld().waiters;
    assert w7.processes == OneRequestWorld().processes;
    assert w7.tables == OneRequestWorld().tables;
  }

  lemma Turn(w: World, a: Action, rest: seq<Action>)
    ensures Exec(w, [a] + rest) == Exec(Step(w, a), rest)
  {
    assert ([a] + rest)[1..] == rest;
  }

  lemma ExecThree(w: World, a: Action, b: Action, c: Action, rest: seq<Action>)
    ensures Exec(w, [a] + ([b] + ([c] + rest))) == Exec(Step(Step(Step(w, a), b), c), rest)
  {
    Turn(w, a, [b] + ([c] + rest));
    Turn(Step(w, a), b, [c] + rest);
    Turn(Step(Step(w, a), b), c, rest);
  }

  /** So it comes about: the Orb is removed while its child shakes hands. */
  lemma UnlistedChildRuns()
    ensures var acts := [EnsureCheck("s"), LaunchChild(0, true), ReadLine(0, Response(0, "")), HandshakeDone(0), Refresh([]), InsertResult(0)];
            var w := Exec(Init(["s"]), acts);
            EntryHolds(w.processes, "s", 0) && "s" !in w.orbs
  {
    var rest := [HandshakeDone(0)] + ([Refresh([])] + ([InsertResult(0)] + []));
    assert [EnsureCheck("s"), LaunchChild(0, true), ReadLine(0, Response(0, "")), HandshakeDone(0), Refresh([]), InsertResult(0)]
        == [EnsureCheck("s")] + ([LaunchChild(0, true)] + ([ReadLine(0, Response(0, ""))] + rest));
    ExecThree(Init(["s"]), EnsureCheck("s"), LaunchChild(0, true), ReadLine(0, Response(0, "")), rest);
    ExecThree(Shaken(), HandshakeDone(0), Refresh([]), InsertResult(0), []);
    HandshakeRuns();
    var ready := Step(Shaken(), HandshakeDone(0));
    assert ready.tasks == [Ready("s", OrbProcess(0, 0, 1))];
    SpawnOutlivesRefresh(ready, 0, []);
  }

  lemma OneRequestRuns()
    ensures Exec(Init(["s"]), ONE_REQUEST) == OneRequestWorld()
  {
    var rest := [HandshakeDone(0)] + ([InsertResult(0)] + ([WriteRequest("s")] + [RegisterWaiter]));
    assert ONE_REQUEST == [EnsureCheck("s")] + ([LaunchChild(0, true)] + ([ReadLine(0, Response(0, ""))] + rest));
    ExecThree(Init(["s"]), EnsureCheck("s"), LaunchChild(0, true), ReadLine(0, Response(0, "")), rest);
    ExecThree(Shaken(), HandshakeDone(0), InsertResult(0), WriteRequest("s"), [RegisterWaiter]);
    HandshakeRuns();
    RequestRuns();
    Turn(Step(Step(Step(Shaken(), HandshakeDone(0)), InsertResult(0)), WriteRequest("s")), RegisterWaiter, []);
    assert [RegisterWaiter] + [] == [RegisterWaiter];
  }

  /** After `acts` nobody answers until the reaper wakes up just past its limit. */
  function ThenSilence(acts: seq<Action>, idleTimeout: nat, slack: nat): seq<Action> {
    if idleTimeout + 1 <= slack then acts + [Tick(idleTimeout + 1)]
    else acts + [Tick(slack)] + [StartTimer(1)] + [Tick(idleTimeout + 1 - slack)]
  }

  lemma SilenceEnds(w: World, acts: seq<Action>, idleTimeout: nat, slack: nat)
    requires Exec(w, acts) == OneRequestWorld()
    ensures Exec(w, ThenSilence(acts, idleTimeout, slack)) ==
            var r := OneRequestWorld();
            var timer := if idleTimeout + 1 <= slack then None else Some(slack);
            r.(clock := idleTimeout + 1, waiters := r.waiters[1 := r.waiters[1].(timer := timer)])
  {
    if idleTimeout + 1 <= slack {
      ExecAppend(w, acts, Tick(idleTimeout + 1));
    } else {
      ExecAppend(w, acts, Tick(slack));
      ExecAppend(w, acts + [Tick(slack)], StartTimer(1));
      ExecAppend(w, acts + [Tick(slack)] + [StartTimer(1)], Tick(idleTimeout + 1 - slack));
      TimerStartsLate(idleTimeout, slack);
    }
  }

  lemma TimerStartsLate(idleTimeout: nat, slack: nat)
    requires idleTimeout + 1 > slack
    ensures var r := OneRequestWorld();
            Step(Step(Step(r, Tick(slack)), StartTimer(1)), Tick(idleTimeout + 1 - slack)) ==
            r.(clock := idleTimeout + 1, waiters := r.waiters[1 := r.waiters[1].(timer := Some(slack))])
  {}

  lemma HastyReaperHits(idleTimeout: nat, slack: nat)
    requires idleTimeout < slack + RESPONSE_TIMEOUT
    ensures var w := Exec(Init(["s"]), ThenSilence(ONE_REQUEST, idleTimeout, slack));
            AllPrompt(w, slack) && !ReapSpares(w, idleTimeout)
  {
    OneRequestRuns();
    SilenceEnds(Init(["s"]), ONE_REQUEST, idleTimeout, slack);
    var w := Exec(Init(["s"]), ThenSilence(ONE_REQUEST, idleTimeout, slack));
    assert Overdue(w.processes["s"], w.clock, idleTimeout);
    assert w.waiters[1].child in OverdueChildren(w.processes, w.clock, idleTimeout);
    assert Awaiting(w.waiters[1], w.clock);
  }

  /**
   In every reachable world the reaper spares live requests, if and only if the idle timeout
   exceeds the response timeout by the delay allowed between a write and the start of its timer.
   */
  lemma ReaperIsSafeIff(idleTimeout: nat, slack: nat)
    ensures ReaperIsSafe(idleTimeout, slack) <==> idleTimeout >= slack + RESPONSE_TIMEOUT
  {
    if idleTimeout >= slack + RESPONSE_TIMEOUT {
      forall orbs, acts | AllPrompt(Exec(Init(orbs), acts), slack)
        ensures ReapSpares(Exec(Init(orbs), acts), idleTimeout)
      {
        InitInv(orbs);
        RunInv(Init(orbs), acts);
        ReapSparesPrompt(Exec(Init(orbs), acts), idleTimeout, slack);
      }
    } else {
      HastyReaperHits(idleTimeout, slack);
    }
  }

  /** With the shipped 300 s and 60 s, a timer may start up to 240 s after its write, and no later. */
  lemma DefaultReaperIsSafeIff(slack: nat)
    ensures ReaperIsSafe(DEFAULT_IDLE_TIMEOUT, slack) <==> slack <= 240
  {
    ReaperIsSafeIff(DEFAULT_IDLE_TIMEOUT, slack);
  }

  // ---------------------------------------------------------------- reachable states

  ghost predicate Reachable(w: World) {
    exists orbs, acts :: w == Exec(Init(orbs), acts)
  }

  lemma StaysReachable(w: World, a: Action)
    requires Reachable(w)
    ensures Reachable(Step(w, a))
  {
    var orbs, acts :| w == Exec(Init(orbs), acts);
    ExecAppend(Init(orbs), acts, a);
  }

  lemma StartIsReachable(orbs: seq<string>)
    ensures Reachable(Init(orbs))
  {
    assert Init(orbs) == Exec(Init(orbs), []);
  }

  /** In a reachable state the tables of running children exist, and an unfinished forward is to a running entry. */
  lemma ReachableIsInRange(w: World)
    requires Reachable(w)
    ensures forall s :: IsRunning(w.processes, s) ==> w.processes[s].proc.child < |w.tables|
    ensures w.writing.Some? ==> w.writing.value.child < |w.tables| && IsRunning(w.processes, w.writing.value.slug)
    ensures forall c: nat, i :: c < |w.tables| && i in w.tables[c].pending ==> w.tables[c].pending[i] < |w.waiters|
  {
    var orbs, acts :| w == Exec(Init(orbs), acts);
    InitInv(orbs);
    RunInv(Init(orbs), acts);
  }

  lemma NoSharedChild(w: World)
    requires Reachable(w)
    ensures forall r, s :: IsRunning(w.processes, r) && IsRunning(w.processes, s) && r != s ==>
              w.processes[r].proc.child != w.processes[s].proc.child
  {
    var orbs, acts :| w == Exec(Init(orbs), acts);
    InitInv(orbs);
    RunInv(Init(orbs), acts);
  }
}
