/** What every interleaving of the gateway's tasks keeps. */
module GatewaySafety {
  import opened Wrappers
  import opened Gateway

  type Entries = map<string, OrbStatus>

  // ---------------------------------------------------------------- the invariant

  predicate EntryHolds(m: Entries, s: string, c: nat) {
    s in m && m[s].Running? && m[s].proc.child == c
  }

  predicate SpawnHolds(tasks: seq<Spawn>, t: nat, c: nat) {
    t < |tasks| && SpawnChild(tasks[t]) == Some(c)
  }

  /** Held children exist and were not killed, and no child is held in two places. */
  ghost predicate HeldOnce(m: Entries, tasks: seq<Spawn>, children: nat, killed: set<nat>) {
    && (forall s :: s in m && m[s].Running? ==> m[s].proc.child < children && m[s].proc.child !in killed)
    && (forall t: nat :: t < |tasks| && SpawnChild(tasks[t]).Some? ==>
          SpawnChild(tasks[t]).value < children && SpawnChild(tasks[t]).value !in killed)
    && (forall r, s :: r in m && s in m && r != s && m[r].Running? && m[s].Running? ==> m[r].proc.child != m[s].proc.child)
    && (forall t: nat, u: nat :: t < u < |tasks| && SpawnChild(tasks[t]).Some? ==> SpawnChild(tasks[t]) != SpawnChild(tasks[u]))
    && (forall s, t: nat :: s in m && m[s].Running? && t < |tasks| ==> SpawnChild(tasks[t]) != Some(m[s].proc.child))
  }

  ghost predicate IsHeld(m: Entries, tasks: seq<Spawn>, c: nat) {
    (exists s :: EntryHolds(m, s, c)) || (exists t: nat :: SpawnHolds(tasks, t, c))
  }

  /** Every child ever launched is either killed or held, and the held ones are held exactly once. */
  ghost predicate Custody(m: Entries, tasks: seq<Spawn>, children: nat, killed: set<nat>) {
    && HeldOnce(m, tasks, children, killed)
    && (forall c: nat :: c < children && c !in killed ==> IsHeld(m, tasks, c))
    && (forall c :: c in killed ==> c < children)
  }

  /** The id that child `c` was sent but whose waiter is not registered yet. */
  function Unregistered(writing: Option<Forward>, c: nat): Option<nat> {
    if writing.Some? && writing.value.child == c then Some(writing.value.id) else None
  }

  /** The ids a child was given fall apart into four classes, with nothing left over. */
  ghost predicate IdsSplit(t: Table, unregistered: Option<nat>) {
    && (forall i: nat :: i < t.issued <==> i in t.pending || i in t.taken || i in t.lost || unregistered == Some(i))
    && (forall i: nat :: i in t.pending ==> i !in t.taken && i !in t.lost && unregistered != Some(i))
    && (forall i: nat :: i in t.taken ==> i !in t.lost && unregistered != Some(i))
    && (forall i: nat :: i in t.lost ==> unregistered != Some(i))
  }

  ghost predicate Ledger(tables: seq<Table>, writing: Option<Forward>) {
    forall c: nat :: c < |tables| ==> IdsSplit(tables[c], Unregistered(writing, c))
  }

  /** The counter of a process is the number of ids its child was given. */
  ghost predicate Counters(m: Entries, tasks: seq<Spawn>, tables: seq<Table>, writing: Option<Forward>) {
    && (forall s :: s in m && m[s].Running? && m[s].proc.child < |tables| ==> m[s].proc.nextId == tables[m[s].proc.child].issued)
    && (forall t: nat :: t < |tasks| && tasks[t].Handshaking? && tasks[t].child < |tables| ==> tables[tasks[t].child].issued == 1)
    && (forall t: nat :: t < |tasks| && tasks[t].Ready? && tasks[t].proc.child < |tables| ==>
          tables[tasks[t].proc.child].issued == tasks[t].proc.nextId == 1)
    && (writing.Some? ==>
          var f := writing.value;
          IsRunning(m, f.slug) && m[f.slug].proc.child == f.child < |tables| && m[f.slug].proc.nextId == f.id + 1)
  }

  ghost predicate ChannelOk(v: Waiter, tables: seq<Table>, clock: nat) {
    && v.child < |tables|
    && (v.id in tables[v.child].pending || v.id in tables[v.child].taken)
    && |v.inbox| <= 1
    && (v.inbox != [] ==> v.inbox[0].child == v.child && v.inbox[0].id == v.id && v.id in tables[v.child].taken)
    && v.wroteAt <= clock
    && (v.timer.Some? ==> v.wroteAt <= v.timer.value <= clock)
  }

  /** Every channel waits for one id of one child, no two for the same, and tables point back to them. */
  ghost predicate Channels(waiters: seq<Waiter>, tables: seq<Table>, clock: nat) {
    && (forall k: nat :: k < |waiters| ==> ChannelOk(waiters[k], tables, clock))
    && (forall j: nat, k: nat :: j < k < |waiters| ==> waiters[j].child != waiters[k].child || waiters[j].id != waiters[k].id)
    && (forall c: nat, i: nat :: c < |tables| && i in tables[c].pending ==>
          var k := tables[c].pending[i];
          k < |waiters| && waiters[k].child == c && waiters[k].id == i)
  }

  /** `last_used` of a published process covers every request written to it. */
  ghost predicate Times(m: Entries, tasks: seq<Spawn>, waiters: seq<Waiter>, clock: nat) {
    && (forall s :: s in m && m[s].Running? ==> m[s].proc.lastUsed <= clock)
    && (forall t: nat :: t < |tasks| && tasks[t].Ready? ==> tasks[t].proc.lastUsed <= clock)
    && (forall s, k: nat :: s in m && m[s].Running? && k < |waiters| && waiters[k].child == m[s].proc.child ==>
          waiters[k].wroteAt <= m[s].proc.lastUsed)
    && (forall t: nat, k: nat :: t < |tasks| && tasks[t].Ready? && k < |waiters| && waiters[k].child == tasks[t].proc.child ==>
          waiters[k].wroteAt <= tasks[t].proc.lastUsed)
  }

  ghost predicate ListedHaveEntries(orbs: seq<string>, m: Entries) {
    forall s :: s in orbs ==> s in m
  }

  ghost predicate Core(w: World) {
    && Custody(w.processes, w.tasks, |w.tables|, w.killed)
    && Ledger(w.tables, w.writing)
    && Counters(w.processes, w.tasks, w.tables, w.writing)
    && Channels(w.waiters, w.tables, w.clock)
    && Times(w.processes, w.tasks, w.waiters, w.clock)
    && ListedHaveEntries(w.orbs, w.processes)
  }

  /** A spawn waits for the answer to id 0 of its child; nobody gets past the handshake without it. */
  ghost predicate Greeted(m: Entries, tasks: seq<Spawn>, waiters: seq<Waiter>, tables: seq<Table>) {
    && (forall t: nat :: t < |tasks| && tasks[t].Handshaking? ==>
          var k := tasks[t].ticket; k < |waiters| && waiters[k].child == tasks[t].child && waiters[k].id == 0)
    && (forall t: nat :: t < |tasks| && tasks[t].Ready? ==> Answered(tables, tasks[t].proc.child))
    && (forall s :: s in m && m[s].Running? ==> Answered(tables, m[s].proc.child))
  }

  /** The child has answered the first request it was sent. */
  predicate Answered(tables: seq<Table>, c: nat) {
    c < |tables| && 0 in tables[c].taken
  }

  ghost predicate Inv(w: World) {
    Core(w) && Greeted(w.processes, w.tasks, w.waiters, w.tables)
  }

  // ---------------------------------------------------------------- custody of the children

  /** Whoever holds a child that was not just killed goes on holding it. */
  lemma HoldersKept(m: Entries, tasks: seq<Spawn>, m': Entries, tasks': seq<Spawn>, children: nat, killed: set<nat>, killed': set<nat>)
    requires Custody(m, tasks, children, killed) && killed <= killed'
    requires forall s, c: nat :: EntryHolds(m, s, c) && c !in killed' ==> EntryHolds(m', s, c)
    requires forall t: nat, c: nat :: SpawnHolds(tasks, t, c) && c !in killed' ==> SpawnHolds(tasks', t, c)
    ensures forall c: nat :: c < children && c !in killed' ==> IsHeld(m', tasks', c)
  {}

  /** A spawn moves on without changing the child it holds, or gives it up to be killed. */
  lemma SpawnMoves(w: World, t: nat, next: Spawn)
    requires Custody(w.processes, w.tasks, |w.tables|, w.killed) && t < |w.tasks|
    requires SpawnChild(next) == SpawnChild(w.tasks[t]) || SpawnChild(next) == None
    ensures var killed' := if SpawnChild(next) == None then w.killed + Dropped(w.tasks[t]) else w.killed;
            Custody(w.processes, w.tasks[t := next], |w.tables|, killed')
  {
    var killed' := if SpawnChild(next) == None then w.killed + Dropped(w.tasks[t]) else w.killed;
    HoldersKept(w.processes, w.tasks, w.processes, w.tasks[t := next], |w.tables|, w.killed, killed');
  }

  lemma LaunchCustody(w: World, t: nat, launched: bool)
    requires Custody(w.processes, w.tasks, |w.tables|, w.killed) && t < |w.tasks| && w.tasks[t].Checked?
    ensures var v := LaunchStep(w, t, launched); Custody(v.processes, v.tasks, |v.tables|, v.killed)
  {
    var v := LaunchStep(w, t, launched);
    HoldersKept(w.processes, w.tasks, v.processes, v.tasks, |w.tables|, w.killed, w.killed);
    assert |v.tables| > |w.tables| ==> SpawnHolds(v.tasks, t, |w.tables|);
  }

  lemma InsertCustody(w: World, t: nat)
    requires Custody(w.processes, w.tasks, |w.tables|, w.killed)
    requires t < |w.tasks| && (w.tasks[t].Ready? || w.tasks[t].Broken?)
    ensures var v := InsertStep(w, t); Custody(v.processes, v.tasks, |v.tables|, v.killed)
  {
    if IsRunning(w.processes, w.tasks[t].slug) {
      SpawnMoves(w, t, Finished);
      assert w.tasks[t].Broken? ==> w.killed + Dropped(w.tasks[t]) == w.killed;
    } else if w.tasks[t].Ready? {
      PublishedHeld(w, t);
    } else {
      BrokenCustody(w, t);
    }
  }

  /** A failed spawn held nothing, and its entry held nothing. */
  lemma BrokenCustody(w: World, t: nat)
    requires Custody(w.processes, w.tasks, |w.tables|, w.killed)
    requires t < |w.tasks| && w.tasks[t].Broken? && !IsRunning(w.processes, w.tasks[t].slug)
    ensures Custody(w.processes[w.tasks[t].slug := Failed], w.tasks[t := Finished], |w.tables|, w.killed)
  {
    HoldersKept(w.processes, w.tasks, w.processes[w.tasks[t].slug := Failed], w.tasks[t := Finished], |w.tables|, w.killed, w.killed);
  }

  /** A published process passes from its spawn to its entry. */
  lemma PublishedHeld(w: World, t: nat)
    requires Custody(w.processes, w.tasks, |w.tables|, w.killed)
    requires t < |w.tasks| && w.tasks[t].Ready? && !IsRunning(w.processes, w.tasks[t].slug)
    ensures var v := InsertStep(w, t);
            HeldOnce(v.processes, v.tasks, |v.tables|, v.killed) && forall c: nat :: c < |v.tables| && c !in v.killed ==> IsHeld(v.processes, v.tasks, c)
  {
    var v := InsertStep(w, t);
    forall c: nat | c < |v.tables| && c !in v.killed ensures IsHeld(v.processes, v.tasks, c) {
      assert IsHeld(w.processes, w.tasks, c);
      PassesOn(w.processes, w.tasks, t, c);
    }
    PublishedOnce(w, t);
  }

  lemma PassesOn(m: Entries, tasks: seq<Spawn>, t: nat, c: nat)
    requires t < |tasks| && tasks[t].Ready? && !IsRunning(m, tasks[t].slug) && IsHeld(m, tasks, c)
    ensures IsHeld(m[tasks[t].slug := Running(tasks[t].proc)], tasks[t := Finished], c)
  {
    if s :| EntryHolds(m, s, c) {
      assert EntryHolds(m[tasks[t].slug := Running(tasks[t].proc)], s, c);
    } else {
      var u: nat :| SpawnHolds(tasks, u, c);
      if u == t {
        assert EntryHolds(m[tasks[t].slug := Running(tasks[t].proc)], tasks[t].slug, c);
      } else {
        assert SpawnHolds(tasks[t := Finished], u, c);
      }
    }
  }

  lemma PublishedOnce(w: World, t: nat)
    requires HeldOnce(w.processes, w.tasks, |w.tables|, w.killed)
    requires t < |w.tasks| && w.tasks[t].Ready? && !IsRunning(w.processes, w.tasks[t].slug)
    ensures var v := InsertStep(w, t); HeldOnce(v.processes, v.tasks, |v.tables|, v.killed)
  {}

  /** An entry whose child stays the same may change in every other respect. */
  lemma TouchCustody(w: World, slug: string, proc: OrbProcess)
    requires Custody(w.processes, w.tasks, |w.tables|, w.killed)
    requires EntryHolds(w.processes, slug, proc.child)
    ensures Custody(w.processes[slug := Running(proc)], w.tasks, |w.tables|, w.killed)
  {
    HoldersKept(w.processes, w.tasks, w.processes[slug := Running(proc)], w.tasks, |w.tables|, w.killed, w.killed);
  }

  /** Entries are dropped or kept, never made up, and exactly the dropped children are killed. */
  ghost predicate OnlyDrops(m: Entries, kept: Entries) {
    forall s :: s in kept && kept[s].Running? ==> s in m && m[s] == kept[s]
  }

  lemma DropCustody(m: Entries, kept: Entries, tasks: seq<Spawn>, children: nat, killed: set<nat>)
    requires Custody(m, tasks, children, killed) && OnlyDrops(m, kept)
    ensures Custody(kept, tasks, children, killed + (RunningChildren(m) - RunningChildren(kept)))
  {
    var gone := RunningChildren(m) - RunningChildren(kept);
    forall c: nat | c in RunningChildren(m) ensures exists s :: EntryHolds(m, s, c) {
      var s :| s in m && m[s].Running? && m[s].proc.child == c;
      assert EntryHolds(m, s, c);
    }
    forall s, c: nat | EntryHolds(m, s, c) && c !in killed + gone ensures EntryHolds(kept, s, c) {
      var r :| r in kept && kept[r].Running? && kept[r].proc.child == c;
    }
    HoldersKept(m, tasks, kept, tasks, children, killed, killed + gone);
  }

  // ---------------------------------------------------------------- ids and channels

  lemma LaunchLedger(w: World, t: nat)
    requires Ledger(w.tables, w.writing) && Counters(w.processes, w.tasks, w.tables, w.writing)
    requires t < |w.tasks| && w.tasks[t].Checked?
    ensures var v := LaunchStep(w, t, true); Ledger(v.tables, v.writing)
  {}

  lemma LaunchChannels(w: World, t: nat)
    requires Channels(w.waiters, w.tables, w.clock) && t < |w.tasks| && w.tasks[t].Checked?
    ensures var v := LaunchStep(w, t, true); Channels(v.waiters, v.tables, v.clock)
  {}

  lemma LaunchCounters(w: World, t: nat)
    requires HeldOnce(w.processes, w.tasks, |w.tables|, w.killed) && Counters(w.processes, w.tasks, w.tables, w.writing)
    requires t < |w.tasks| && w.tasks[t].Checked?
    ensures var v := LaunchStep(w, t, true); Counters(v.processes, v.tasks, v.tables, v.writing)
  {}

  lemma LaunchTimes(w: World, t: nat)
    requires HeldOnce(w.processes, w.tasks, |w.tables|, w.killed) && Times(w.processes, w.tasks, w.waiters, w.clock)
    requires t < |w.tasks| && w.tasks[t].Checked?
    ensures var v := LaunchStep(w, t, true); Times(v.processes, v.tasks, v.waiters, v.clock)
  {}

  lemma WriteLedger(w: World, slug: string)
    requires Core(w) && w.writing.None? && IsRunning(w.processes, slug)
    ensures var v := WriteStep(w, slug); Ledger(v.tables, v.writing)
  {}

  lemma WriteChannels(w: World, slug: string)
    requires Core(w) && w.writing.None? && IsRunning(w.processes, slug)
    ensures var v := WriteStep(w, slug); Channels(v.waiters, v.tables, v.clock)
  {}

  lemma WriteCounters(w: World, slug: string)
    requires Core(w) && w.writing.None? && IsRunning(w.processes, slug)
    ensures var v := WriteStep(w, slug);
            Counters(v.processes, v.tasks, v.tables, v.writing) && Times(v.processes, v.tasks, v.waiters, v.clock)
  {}

  lemma LoseLedger(w: World)
    requires Ledger(w.tables, w.writing) && Counters(w.processes, w.tasks, w.tables, w.writing) && w.writing.Some?
    ensures var v := LoseStep(w); Ledger(v.tables, v.writing)
  {}

  lemma LoseChannels(w: World)
    requires Channels(w.waiters, w.tables, w.clock) && Counters(w.processes, w.tasks, w.tables, w.writing) && w.writing.Some?
    ensures var v := LoseStep(w); Channels(v.waiters, v.tables, v.clock)
  {}

  lemma LoseCounters(w: World)
    requires Counters(w.processes, w.tasks, w.tables, w.writing) && w.writing.Some?
    ensures var v := LoseStep(w); Counters(v.processes, v.tasks, v.tables, v.writing)
  {}

  lemma RegisterLedger(w: World)
    requires Ledger(w.tables, w.writing) && Counters(w.processes, w.tasks, w.tables, w.writing) && w.writing.Some?
    ensures w.writing.value.id !in w.tables[w.writing.value.child].pending
    ensures var v := RegisterStep(w); Ledger(v.tables, v.writing)
  {}

  /** No channel waits for the id yet, so the new one is the only one. */
  lemma RegisterChannels(w: World)
    requires Ledger(w.tables, w.writing) && Counters(w.processes, w.tasks, w.tables, w.writing) && w.writing.Some?
    requires Channels(w.waiters, w.tables, w.clock)
    ensures var v := RegisterStep(w); Channels(v.waiters, v.tables, v.clock)
  {}

  lemma RegisterCounters(w: World)
    requires HeldOnce(w.processes, w.tasks, |w.tables|, w.killed) && w.writing.Some?
    requires Counters(w.processes, w.tasks, w.tables, w.writing)
    ensures var v := RegisterStep(w); Counters(v.processes, v.tasks, v.tables, v.writing)
  {}

  lemma RegisterTimes(w: World)
    requires HeldOnce(w.processes, w.tasks, |w.tables|, w.killed) && w.writing.Some?
    requires Counters(w.processes, w.tasks, w.tables, w.writing)
    requires Channels(w.waiters, w.tables, w.clock) && Times(w.processes, w.tasks, w.waiters, w.clock)
    ensures var v := RegisterStep(w); Times(v.processes, v.tasks, v.waiters, v.clock)
  {}

  lemma DeliverLedger(w: World, c: nat, id: nat, body: string)
    requires Ledger(w.tables, w.writing) && Channels(w.waiters, w.tables, w.clock)
    requires Counters(w.processes, w.tasks, w.tables, w.writing)
    requires c < |w.tables| && id in w.tables[c].pending
    ensures var v := DeliverStep(w, c, id, body);
            Ledger(v.tables, v.writing) && Counters(v.processes, v.tasks, v.tables, v.writing)
  {}

  lemma DeliverChannels(w: World, c: nat, id: nat, body: string)
    requires Ledger(w.tables, w.writing) && Channels(w.waiters, w.tables, w.clock)
    requires c < |w.tables| && id in w.tables[c].pending
    ensures var v := DeliverStep(w, c, id, body); Channels(v.waiters, v.tables, v.clock)
  {}

  lemma DeliverTimes(w: World, c: nat, id: nat, body: string)
    requires Times(w.processes, w.tasks, w.waiters, w.clock)
    requires c < |w.tables| && id in w.tables[c].pending && w.tables[c].pending[id] < |w.waiters|
    ensures var v := DeliverStep(w, c, id, body); Times(v.processes, v.tasks, v.waiters, v.clock)
  {}

  // ---------------------------------------------------------------- refresh, exactly

  function Occurrences(found: seq<string>, s: string): nat {
    if found == [] then 0 else (if found[0] == s then 1 else 0) + Occurrences(found[1..], s)
  }

  lemma {:induction false} OccursIffIn(found: seq<string>, s: string)
    ensures s in found <==> Occurrences(found, s) > 0
  {
    if found != [] {
      OccursIffIn(found[1..], s);
    }
  }

  lemma {:induction false} ReconcileAt(found: seq<string>, m: Entries, done: Entries, s: string)
    ensures var r := Reconcile(found, m, done);
            var n := Occurrences(found, s);
            && (s in r <==> s in done || n > 0)
            && (n == 0 && s in done ==> r[s] == done[s])
            && (n == 1 ==> r[s] == if s in m then m[s] else Idle)
            && (n > 1 ==> r[s] == Idle)
  {
    if found != [] {
      var status := if found[0] in m then m[found[0]] else Idle;
      ReconcileAt(found[1..], m - {found[0]}, done[found[0] := status], s);
    }
  }

  /**
   What a refresh leaves under each slug, for any registry whatever: the very entry of a slug
   listed once, Idle for a new slug, Idle for a slug listed twice, and nothing for the rest.
   */
  lemma RefreshExactly(found: seq<string>, m: Entries)
    ensures var r := Reconcile(found, m, map[]);
            && (forall s :: s in r <==> s in found)
            && (forall s :: s in r ==> r[s] == if Occurrences(found, s) == 1 && s in m then m[s] else Idle)
  {
    forall s
      ensures var r := Reconcile(found, m, map[]);
              && (s in r <==> s in found)
              && (s in r ==> r[s] == if Occurrences(found, s) == 1 && s in m then m[s] else Idle)
    {
      ReconcileAt(found, m, map[], s);
      OccursIffIn(found, s);
    }
  }

  /** A running process survives a refresh if and only if its slug is listed exactly once. */
  lemma SurvivesRefreshIff(found: seq<string>, m: Entries, s: string)
    requires IsRunning(m, s)
    ensures var r := Reconcile(found, m, map[]);
            (s in r && r[s] == m[s]) <==> Occurrences(found, s) == 1
  {
    RefreshExactly(found, m);
    OccursIffIn(found, s);
  }

  /** Refreshing again against the same registry changes nothing, duplicates or not. */
  lemma RefreshIdempotent(w: World, found: seq<string>)
    requires w.writing.None?
    ensures var once := Step(w, Refresh(found)); Step(once, Refresh(found)) == once
  {
    var r := Reconcile(found, w.processes, map[]);
    RefreshExactly(found, w.processes);
    RefreshExactly(found, r);
    assert Reconcile(found, r, map[]) == r;
  }

  // ---------------------------------------------------------------- every step keeps the invariant

  lemma InitInv(orbs: seq<string>)
    ensures Inv(Init(orbs))
  {}

  lemma DropInv(w: World, v: World)
    requires Core(w) && w.writing.None? && OnlyDrops(w.processes, v.processes)
    requires v == w.(orbs := v.orbs, processes := v.processes, killed := v.killed)
    requires v.killed == w.killed + (RunningChildren(w.processes) - RunningChildren(v.processes))
    requires ListedHaveEntries(v.orbs, v.processes)
    ensures Core(v)
  {
    DropCustody(w.processes, v.processes, w.tasks, |w.tables|, w.killed);
  }

  /** One entry goes Idle, the others stay: what is dropped is that entry's child alone. */
  lemma KillInv(w: World, slug: string)
    requires Core(w) && w.writing.None?
    ensures Core(KillStep(w, slug))
  {
    var v := KillStep(w, slug);
    assert RunningChildren(w.processes) - RunningChildren(v.processes)
        == if IsRunning(w.processes, slug) then {w.processes[slug].proc.child} else {} by {
      forall c | c in RunningChildren(w.processes) && c !in RunningChildren(v.processes)
        ensures IsRunning(w.processes, slug) && c == w.processes[slug].proc.child
      {
        var s :| EntryHolds(w.processes, s, c);
        assert s != slug ==> EntryHolds(v.processes, s, c);
      }
    }
    DropInv(w, v);
  }

  lemma ReapDrops(m: Entries, tasks: seq<Spawn>, children: nat, killed: set<nat>, clock: nat, idle: nat)
    requires Custody(m, tasks, children, killed)
    ensures OverdueChildren(m, clock, idle) == RunningChildren(m) - RunningChildren(Recycle(m, clock, idle))
  {
    var kept := Recycle(m, clock, idle);
    forall c | c in RunningChildren(m)
      ensures c in OverdueChildren(m, clock, idle) <==> c !in RunningChildren(kept)
    {
      var s :| EntryHolds(m, s, c);
      if Overdue(m[s], clock, idle) {
        assert forall r :: r in kept && kept[r].Running? ==> kept[r] == m[r];
      } else {
        assert EntryHolds(kept, s, c);
      }
    }
  }

  lemma ReapInv(w: World, idle: nat)
    requires Core(w) && w.writing.None?
    ensures Core(Step(w, Reap(idle)))
  {
    ReapDrops(w.processes, w.tasks, |w.tables|, w.killed, w.clock, idle);
    DropInv(w, Step(w, Reap(idle)));
  }

  lemma RefreshInv(w: World, found: seq<string>)
    requires Core(w) && w.writing.None?
    ensures Core(RefreshStep(w, found))
  {
    RefreshExactly(found, w.processes);
    DropInv(w, RefreshStep(w, found));
  }

  lemma ShutdownInv(w: World)
    requires Core(w) && w.writing.None?
    ensures Core(Step(w, Shutdown))
  {
    assert RunningChildren(AllIdle(w.processes)) == {};
    DropInv(w, Step(w, Shutdown));
  }

  lemma CheckedInv(w: World, slug: string)
    requires Core(w)
    ensures Core(w.(tasks := w.tasks + [Checked(slug)]))
  {
    HoldersKept(w.processes, w.tasks, w.processes, w.tasks + [Checked(slug)], |w.tables|, w.killed, w.killed);
  }

  predicate MovesOn(w: World, t: nat, next: Spawn)
    requires t < |w.tasks|
  {
    next.Finished? || next.Broken?
    || (w.tasks[t].Handshaking? && next == Ready(w.tasks[t].slug, OrbProcess(w.tasks[t].child, w.clock, 1)))
  }

  lemma MoveCounters(w: World, t: nat, next: Spawn)
    requires Counters(w.processes, w.tasks, w.tables, w.writing) && t < |w.tasks| && MovesOn(w, t, next)
    ensures Counters(w.processes, w.tasks[t := next], w.tables, w.writing)
  {}

  lemma MoveTimes(w: World, t: nat, next: Spawn)
    requires Times(w.processes, w.tasks, w.waiters, w.clock) && Channels(w.waiters, w.tables, w.clock) && t < |w.tasks| && MovesOn(w, t, next)
    ensures Times(w.processes, w.tasks[t := next], w.waiters, w.clock)
  {
    assert forall k: nat :: k < |w.waiters| ==> ChannelOk(w.waiters[k], w.tables, w.clock);
  }

  lemma MoveInv(w: World, t: nat, next: Spawn)
    requires Core(w) && t < |w.tasks| && MovesOn(w, t, next)
    ensures Core(w.(tasks := w.tasks[t := next], killed := if next.Ready? then w.killed else w.killed + Dropped(w.tasks[t])))
  {
    SpawnMoves(w, t, next);
    MoveCounters(w, t, next);
    MoveTimes(w, t, next);
  }

  lemma LaunchInv(w: World, t: nat, launched: bool)
    requires Core(w) && t < |w.tasks| && w.tasks[t].Checked?
    ensures Core(LaunchStep(w, t, launched))
  {
    if w.tasks[t].slug in w.orbs && launched {
      LaunchCustody(w, t, launched);
      LaunchLedger(w, t);
      LaunchChannels(w, t);
      LaunchCounters(w, t);
      LaunchTimes(w, t);
    } else {
      assert w.killed + Dropped(w.tasks[t]) == w.killed;
      MoveInv(w, t, if w.tasks[t].slug in w.orbs then Broken(w.tasks[t].slug) else Finished);
    }
  }

  lemma InsertCounters(w: World, t: nat)
    requires Counters(w.processes, w.tasks, w.tables, w.writing) && Times(w.processes, w.tasks, w.waiters, w.clock)
    requires w.writing.None? && t < |w.tasks| && (w.tasks[t].Ready? || w.tasks[t].Broken?)
    ensures var v := InsertStep(w, t);
            Counters(v.processes, v.tasks, v.tables, v.writing) && Times(v.processes, v.tasks, v.waiters, v.clock)
  {}

  lemma InsertInv(w: World, t: nat)
    requires Core(w) && w.writing.None? && t < |w.tasks| && (w.tasks[t].Ready? || w.tasks[t].Broken?)
    ensures Core(InsertStep(w, t))
  {
    InsertCustody(w, t);
    InsertCounters(w, t);
  }

  lemma WriteInv(w: World, slug: string)
    requires Core(w) && w.writing.None? && IsRunning(w.processes, slug)
    ensures Core(WriteStep(w, slug))
  {
    WriteLedger(w, slug);
    WriteChannels(w, slug);
    WriteCounters(w, slug);
    TouchCustody(w, slug, WriteStep(w, slug).processes[slug].proc);
  }

  lemma RegisterInv(w: World)
    requires Core(w) && w.writing.Some?
    ensures Core(RegisterStep(w))
  {
    RegisterLedger(w);
    RegisterChannels(w);
    RegisterCounters(w);
    RegisterTimes(w);
    var slug := w.writing.value.slug;
    TouchCustody(w, slug, RegisterStep(w).processes[slug].proc);
  }

  lemma TickInv(w: World, elapsed: nat)
    requires Core(w)
    ensures Core(w.(clock := w.clock + elapsed))
  {
    TickTimes(w, elapsed);
  }

  lemma TickTimes(w: World, elapsed: nat)
    requires Channels(w.waiters, w.tables, w.clock) && Times(w.processes, w.tasks, w.waiters, w.clock)
    ensures Channels(w.waiters, w.tables, w.clock + elapsed) && Times(w.processes, w.tasks, w.waiters, w.clock + elapsed)
  {}

  /** A waiter may start its timer or stop listening. */
  lemma WaiterInv(w: World, k: nat, v: Waiter)
    requires Core(w) && k < |w.waiters|
    requires v == w.waiters[k].(timer := v.timer, listening := v.listening)
    requires v.timer == w.waiters[k].timer || v.timer == Some(w.clock)
    ensures Core(w.(waiters := w.waiters[k := v]))
  {
    TouchChannels(w, k, v);
    TouchTimes(w, k, v);
  }

  lemma TouchChannels(w: World, k: nat, v: Waiter)
    requires Channels(w.waiters, w.tables, w.clock) && k < |w.waiters|
    requires v == w.waiters[k].(timer := v.timer, listening := v.listening)
    requires v.timer == w.waiters[k].timer || v.timer == Some(w.clock)
    ensures Channels(w.waiters[k := v], w.tables, w.clock)
  {
    assert ChannelOk(w.waiters[k], w.tables, w.clock);
  }

  lemma TouchTimes(w: World, k: nat, v: Waiter)
    requires Times(w.processes, w.tasks, w.waiters, w.clock) && k < |w.waiters|
    requires v == w.waiters[k].(timer := v.timer, listening := v.listening)
    ensures Times(w.processes, w.tasks, w.waiters[k := v], w.clock)
  {}

  lemma LoseInv(w: World)
    requires Core(w) && w.writing.Some?
    ensures Core(LoseStep(w))
  {
    LoseLedger(w);
    LoseChannels(w);
    LoseCounters(w);
  }

  lemma DeliverInv(w: World, c: nat, id: nat, body: string)
    requires Core(w) && c < |w.tables| && id in w.tables[c].pending
    ensures w.tables[c].pending[id] < |w.waiters| && Core(DeliverStep(w, c, id, body))
  {
    DeliverLedger(w, c, id, body);
    DeliverChannels(w, c, id, body);
    DeliverTimes(w, c, id, body);
  }

  // ---------------------------------------------------------------- one lemma per action

  lemma TickKeeps(w: World, elapsed: nat)
    requires Core(w)
    ensures Core(Step(w, Tick(elapsed)))
  {
    TickInv(w, elapsed);
  }

  lemma EnsureCheckKeeps(w: World, slug: string)
    requires Core(w)
    ensures Core(Step(w, EnsureCheck(slug)))
  {
    CheckedInv(w, slug);
  }

  lemma LaunchKeeps(w: World, t: nat, launched: bool)
    requires Core(w)
    ensures Core(Step(w, LaunchChild(t, launched)))
  {
    if t < |w.tasks| && w.tasks[t].Checked? {
      LaunchInv(w, t, launched);
    }
  }

  lemma HandshakeDoneKeeps(w: World, t: nat)
    requires Core(w)
    ensures Core(Step(w, HandshakeDone(t)))
  {
    if t < |w.tasks| && w.tasks[t].Handshaking? {
      MoveInv(w, t, Ready(w.tasks[t].slug, OrbProcess(w.tasks[t].child, w.clock, 1)));
    }
  }

  lemma HandshakeFailedKeeps(w: World, t: nat)
    requires Core(w)
    ensures Core(Step(w, HandshakeFailed(t)))
  {
    if t < |w.tasks| && w.tasks[t].Handshaking? {
      MoveInv(w, t, Broken(w.tasks[t].slug));
    }
  }

  lemma InsertKeeps(w: World, t: nat)
    requires Core(w)
    ensures Core(Step(w, InsertResult(t)))
  {
    if w.writing.None? && t < |w.tasks| && (w.tasks[t].Ready? || w.tasks[t].Broken?) {
      InsertInv(w, t);
    }
  }

  lemma AbandonKeeps(w: World, t: nat)
    requires Core(w)
    ensures Core(Step(w, Abandon(t)))
  {
    if t < |w.tasks| {
      MoveInv(w, t, Finished);
    }
  }

  lemma WriteKeeps(w: World, slug: string)
    requires Core(w)
    ensures Core(Step(w, WriteRequest(slug)))
  {
    if w.writing.None? && IsRunning(w.processes, slug) {
      WriteInv(w, slug);
    }
  }

  lemma LoseKeeps(w: World)
    requires Core(w)
    ensures Core(Step(w, WriteFailed))
  {
    if w.writing.Some? {
      LoseInv(w);
    }
  }

  lemma RegisterKeeps(w: World)
    requires Core(w)
    ensures Core(Step(w, RegisterWaiter))
  {
    if w.writing.Some? {
      RegisterInv(w);
    }
  }

  lemma StartTimerKeeps(w: World, k: nat)
    requires Core(w)
    ensures Core(Step(w, StartTimer(k)))
  {
    if k < |w.waiters| && w.waiters[k].timer.None? {
      WaiterInv(w, k, w.waiters[k].(timer := Some(w.clock)));
    }
  }

  lemma GiveUpKeeps(w: World, k: nat)
    requires Core(w)
    ensures Core(Step(w, GiveUp(k)))
  {
    if k < |w.waiters| {
      WaiterInv(w, k, w.waiters[k].(listening := false));
    }
  }

  lemma ReadLineKeeps(w: World, c: nat, line: Line)
    requires Core(w)
    ensures Core(Step(w, ReadLine(c, line)))
  {
    if line.Response? && c < |w.tables| && line.id in w.tables[c].pending {
      DeliverInv(w, c, line.id, line.body);
      ReadLineDelivers(w, c, line);
    } else {
      assert Step(w, ReadLine(c, line)) == w;
    }
  }

  lemma ReadLineDelivers(w: World, c: nat, line: Line)
    requires line.Response? && c < |w.tables| && line.id in w.tables[c].pending && w.tables[c].pending[line.id] < |w.waiters|
    ensures Step(w, ReadLine(c, line)) == DeliverStep(w, c, line.id, line.body)
  {}

  lemma KillKeeps(w: World, slug: string)
    requires Core(w)
    ensures Core(Step(w, Kill(slug)))
  {
    if w.writing.None? {
      KillInv(w, slug);
    }
  }

  lemma ReapKeeps(w: World, idle: nat)
    requires Core(w)
    ensures Core(Step(w, Reap(idle)))
  {
    if w.writing.None? {
      ReapInv(w, idle);
    }
  }

  lemma RefreshKeeps(w: World, found: seq<string>)
    requires Core(w)
    ensures Core(Step(w, Refresh(found)))
  {
    if w.writing.None? {
      RefreshInv(w, found);
    }
  }

  lemma ShutdownKeeps(w: World)
    requires Core(w)
    ensures Core(Step(w, Shutdown))
  {
    if w.writing.None? {
      ShutdownInv(w);
    }
  }

  lemma StepCore(w: World, a: Action)
    requires Core(w)
    ensures Core(Step(w, a))
  {
    match a
    case Tick(elapsed) => TickKeeps(w, elapsed);
    case EnsureCheck(slug) => EnsureCheckKeeps(w, slug);
    case LaunchChild(t, launched) => LaunchKeeps(w, t, launched);
    case HandshakeDone(t) => HandshakeDoneKeeps(w, t);
    case HandshakeFailed(t) => HandshakeFailedKeeps(w, t);
    case InsertResult(t) => InsertKeeps(w, t);
    case Abandon(t) => AbandonKeeps(w, t);
    case WriteRequest(slug) => WriteKeeps(w, slug);
    case WriteFailed => LoseKeeps(w);
    case RegisterWaiter => RegisterKeeps(w);
    case StartTimer(k) => StartTimerKeeps(w, k);
    case GiveUp(k) => GiveUpKeeps(w, k);
    case ReadLine(c, line) => ReadLineKeeps(w, c, line);
    case Kill(slug) => KillKeeps(w, slug);
    case Reap(idle) => ReapKeeps(w, idle);
    case Refresh(found) => RefreshKeeps(w, found);
    case Shutdown => ShutdownKeeps(w);
  }

  // ---------------------------------------------------------------- nobody is published unanswered

  /** Tables only gain answers, channels and their ids stay. */
  predicate Remembers(w: World, v: World) {
    && |w.waiters| <= |v.waiters|
    && (forall k: nat :: k < |w.waiters| ==> v.waiters[k].child == w.waiters[k].child && v.waiters[k].id == w.waiters[k].id)
    && forall c: nat :: c < |w.tables| && Answered(w.tables, c) ==> Answered(v.tables, c)
  }

  lemma StepRemembers(w: World, a: Action)
    ensures Remembers(w, Step(w, a))
  {}

  /** The entries a step leaves running were running with the same child, or come from a spawn that was ready. */
  lemma RunningComesFrom(w: World, a: Action)
    ensures forall s :: IsRunning(Step(w, a).processes, s) ==>
              (exists r :: IsRunning(w.processes, r) && w.processes[r].proc.child == Step(w, a).processes[s].proc.child)
              || (exists t: nat :: t < |w.tasks| && w.tasks[t].Ready? && w.tasks[t].proc.child == Step(w, a).processes[s].proc.child)
  {
    forall s | IsRunning(Step(w, a).processes, s)
      ensures (exists r :: IsRunning(w.processes, r) && w.processes[r].proc.child == Step(w, a).processes[s].proc.child)
              || (exists t: nat :: t < |w.tasks| && w.tasks[t].Ready? && w.tasks[t].proc.child == Step(w, a).processes[s].proc.child)
    {
      if a.Refresh? {
        RefreshExactly(a.found, w.processes);
      }
      if a.InsertResult? && Step(w, a) != w && !IsRunning(w.processes, w.tasks[a.task].slug) && s == w.tasks[a.task].slug {
        assert w.tasks[a.task].Ready?;
      } else {
        assert IsRunning(w.processes, s);
      }
    }
  }

  /** A spawn becomes ready only when its channel has the answer. */
  lemma ReadyComesFrom(w: World, a: Action, t: nat)
    requires Core(w) && Greeted(w.processes, w.tasks, w.waiters, w.tables)
    requires t < |Step(w, a).tasks| && Step(w, a).tasks[t].Ready?
    ensures Answered(w.tables, Step(w, a).tasks[t].proc.child)
  {
    ReadyIsNew(w, a, t);
    if a == HandshakeDone(t) && w.tasks[t].Handshaking? {
      assert ChannelOk(w.waiters[w.tasks[t].ticket], w.tables, w.clock);
    }
  }

  lemma ReadyIsNew(w: World, a: Action, t: nat)
    requires t < |Step(w, a).tasks| && Step(w, a).tasks[t].Ready?
    ensures t < |w.tasks|
    ensures w.tasks[t] == Step(w, a).tasks[t]
            || (a == HandshakeDone(t) && w.tasks[t].Handshaking? && w.tasks[t].ticket < |w.waiters| && w.waiters[w.tasks[t].ticket].inbox != []
                && Step(w, a).tasks[t].proc.child == w.tasks[t].child)
  {}

  lemma HandshakingComesFrom(w: World, a: Action, t: nat)
    requires Greeted(w.processes, w.tasks, w.waiters, w.tables)
    requires t < |Step(w, a).tasks| && Step(w, a).tasks[t].Handshaking?
    ensures var v := Step(w, a); var k := v.tasks[t].ticket;
            k < |v.waiters| && v.waiters[k].child == v.tasks[t].child && v.waiters[k].id == 0
  {
    StepRemembers(w, a);
  }

  lemma StepGreets(w: World, a: Action)
    requires Inv(w)
    ensures var v := Step(w, a); Greeted(v.processes, v.tasks, v.waiters, v.tables)
  {
    var v := Step(w, a);
    StepRemembers(w, a);
    RunningComesFrom(w, a);
    forall t: nat | t < |v.tasks| && v.tasks[t].Ready? ensures Answered(v.tables, v.tasks[t].proc.child) {
      ReadyComesFrom(w, a, t);
    }
    forall t: nat | t < |v.tasks| && v.tasks[t].Handshaking?
      ensures v.tasks[t].ticket < |v.waiters| && v.waiters[v.tasks[t].ticket].child == v.tasks[t].child && v.waiters[v.tasks[t].ticket].id == 0
    {
      HandshakingComesFrom(w, a, t);
    }
  }

  /** Every step of every actor keeps the invariant. */
  lemma StepInv(w: World, a: Action)
    requires Inv(w)
    ensures Inv(Step(w, a))
  {
    StepCore(w, a);
    StepGreets(w, a);
  }

  lemma {:induction false} RunInv(w: World, acts: seq<Action>)
    requires Inv(w)
    ensures Inv(Exec(w, acts))
    decreases |acts|
  {
    if acts != [] {
      StepInv(w, acts[0]);
      RunInv(Step(w, acts[0]), acts[1..]);
    }
  }
}
