/**
 `RuntimeManager` in its own, imperative form. Each method is what one task runs while it holds
 the `processes` lock (or a reader, one table's mutex); its effect is one step of module Gateway,
 so everything proved there about runs is proved about interleaved calls of these methods.
 */
module RuntimeManagement {
  import opened Wrappers
  import opened Gateway
  import opened GatewayTheorems

  /** Half way through a refresh each entry is in the old map or, if it still has an owner, in the new one. */
  ghost predicate Moving(m: map<string, OrbStatus>, remaining: map<string, OrbStatus>, kept: map<string, OrbStatus>) {
    && (forall s :: s in remaining ==> s in m && remaining[s] == m[s] && s !in kept)
    && (forall s :: s in kept && kept[s].Running? ==> s in m && kept[s] == m[s])
    && (forall s :: s in m ==> s in remaining || s in kept)
  }

  ghost function Ownerless(m: map<string, OrbStatus>, remaining: map<string, OrbStatus>, kept: map<string, OrbStatus>): set<nat> {
    set s | s in m && s !in remaining && m[s].Running? && !IsRunning(kept, s) :: m[s].proc.child
  }

  lemma MovesOn(m: map<string, OrbStatus>, remaining: map<string, OrbStatus>, kept: map<string, OrbStatus>, slug: string)
    requires Moving(m, remaining, kept)
    ensures var status := if slug in remaining then remaining[slug] else Idle;
            && Moving(m, remaining - {slug}, kept[slug := status])
            && Ownerless(m, remaining - {slug}, kept[slug := status])
               == Ownerless(m, remaining, kept) + (if IsRunning(kept, slug) then {kept[slug].proc.child} else {})
  {}

  lemma AllOwnerless(w: World, remaining: map<string, OrbStatus>, kept: map<string, OrbStatus>)
    requires Reachable(w) && Moving(w.processes, remaining, kept)
    ensures Ownerless(w.processes, remaining, kept) + RunningChildren(remaining) == RunningChildren(w.processes) - RunningChildren(kept)
  {
    NoSharedChild(w);
  }

  class RuntimeManager {
    var orbs: seq<string>
    var processes: map<string, OrbStatus>
    var tables: seq<Table>
    var tasks: seq<Spawn>
    var waiters: seq<Waiter>
    var killed: set<nat>
    var writing: Option<Forward>
    var clock: nat

    ghost function Snapshot(): World
      reads this
    {
      World(orbs, processes, tables, tasks, waiters, killed, writing, clock)
    }

    ghost predicate Valid()
      reads this
    {
      Reachable(Snapshot())
    }

    constructor (found: seq<string>)
      ensures Valid() && Snapshot() == Init(found)
    {
      var entries: map<string, OrbStatus> := map[];
      for i := 0 to |found|
        invariant forall s :: s in entries <==> s in found[..i]
        invariant forall s :: s in entries ==> entries[s] == Idle
      {
        entries := entries[found[i] := Idle];
      }
      assert found[..|found|] == found;
      assert entries == InitialEntries(found);
      orbs, processes, tables, tasks, waiters := found, entries, [], [], [];
      killed, writing, clock := {}, None, 0;
      StartIsReachable(found);
    }

    /** Killing a child, or dropping the last owner of its handle. */
    method KillChild(status: OrbStatus)
      modifies this`killed
      ensures killed == old(killed) + (if status.Running? then {status.proc.child} else {})
    {
      if status.Running? {
        killed := killed + {status.proc.child};
      }
    }

    /**
     The entries of listed Orbs move to a new map. A handle without an owner is dropped, and its
     child killed: one that the new map overwrites, and in the end all that the old map still has.
     */
    method RefreshRegistry(found: seq<string>)
      requires Valid() && writing.None?
      modifies this
      ensures Valid() && Snapshot() == Step(old(Snapshot()), Refresh(found))
    {
      ghost var before := Snapshot();
      StaysReachable(before, Refresh(found));
      var remaining, kept := MoveListed(found);
      DropAll(remaining);
      AllOwnerless(before, remaining, kept);
      orbs, processes := found, kept;
    }

    method MoveListed(found: seq<string>) returns (remaining: map<string, OrbStatus>, kept: map<string, OrbStatus>)
      modifies this`killed
      ensures Moving(processes, remaining, kept) && kept == Reconcile(found, processes, map[])
      ensures killed == old(killed) + Ownerless(processes, remaining, kept)
    {
      remaining, kept := processes, map[];
      for i := 0 to |found|
        invariant Moving(processes, remaining, kept)
        invariant killed == old(killed) + Ownerless(processes, remaining, kept)
        invariant Reconcile(found[i..], remaining, kept) == Reconcile(found, processes, map[])
      {
        assert found[i..][1..] == found[i + 1..];
        var slug := found[i];
        MovesOn(processes, remaining, kept, slug);
        var status := if slug in remaining then remaining[slug] else Idle;
        if slug in kept {
          KillChild(kept[slug]);
        }
        remaining := remaining - {slug};
        kept := kept[slug := status];
      }
      assert found[|found|..] == [];
    }

    /** Dropping a map drops all handles in it. */
    method DropAll(entries: map<string, OrbStatus>)
      modifies this`killed
      ensures killed == old(killed) + RunningChildren(entries)
    {
      var left := entries.Keys;
      while left != {}
        invariant left <= entries.Keys
        invariant killed == old(killed) + set s | s in entries && s !in left && entries[s].Running? :: entries[s].proc.child
      {
        var slug :| slug in left;
        KillChild(entries[slug]);
        left := left - {slug};
      }
    }

    /** Publishes the outcome of a spawn unless another one got there first. */
    method InsertSpawned(task: nat) returns (ok: bool)
      requires Valid() && writing.None? && task < |tasks| && (tasks[task].Ready? || tasks[task].Broken?)
      modifies this
      ensures Valid() && Snapshot() == Step(old(Snapshot()), InsertResult(task))
      ensures ok <==> IsRunning(processes, old(tasks[task]).slug)
    {
      ghost var before := Snapshot();
      StaysReachable(before, InsertResult(task));
      var spawn := tasks[task];
      tasks := tasks[task := Finished];
      if IsRunning(processes, spawn.slug) {
        if spawn.Ready? {
          KillChild(Running(spawn.proc));
        }
        return true;
      }
      if spawn.Ready? {
        processes := processes[spawn.slug := Running(spawn.proc)];
        return true;
      } else {
        processes := processes[spawn.slug := Failed];
        return false;
      }
    }

    /** Takes an id and writes the request; the lock stays held until the waiter is registered or the write failed. */
    method WriteRequest(slug: string) returns (id: Option<nat>)
      requires Valid() && writing.None?
      modifies this
      ensures Valid() && Snapshot() == Step(old(Snapshot()), Action.WriteRequest(slug))
      ensures id == if IsRunning(old(processes), slug) then Some(old(processes)[slug].proc.nextId) else None
    {
      ghost var before := Snapshot();
      StaysReachable(before, Action.WriteRequest(slug));
      ReachableIsInRange(before);
      if !IsRunning(processes, slug) {
        return None;
      }
      var proc := processes[slug].proc;
      id := Some(proc.nextId);
      processes := processes[slug := Running(proc.(nextId := proc.nextId + 1))];
      tables := tables[proc.child := tables[proc.child].(issued := tables[proc.child].issued + 1)];
      writing := Some(Forward(slug, proc.child, proc.nextId));
    }

    method RegisterWaiter() returns (ticket: nat)
      requires Valid() && writing.Some?
      modifies this
      ensures Valid() && Snapshot() == Step(old(Snapshot()), Action.RegisterWaiter)
      ensures ticket == old(|waiters|) && writing.None?
    {
      ghost var before := Snapshot();
      StaysReachable(before, Action.RegisterWaiter);
      ReachableIsInRange(before);
      var f := writing.value;
      ticket := |waiters|;
      processes := processes[f.slug := Running(processes[f.slug].proc.(lastUsed := clock))];
      var table := tables[f.child];
      tables := tables[f.child := table.(pending := table.pending[f.id := ticket])];
      waiters := waiters + [Waiter(f.child, f.id, clock, None, true, [])];
      writing := None;
    }

    /** The reader routes one line; true when a waiting caller received it. */
    method ReadLine(child: nat, line: Line) returns (served: bool)
      requires Valid() && child < |tables|
      modifies this
      ensures Valid() && Snapshot() == Step(old(Snapshot()), Action.ReadLine(child, line))
      ensures served <==> waiters != old(waiters)
    {
      StaysReachable(Snapshot(), Action.ReadLine(child, line));
      ReachableIsInRange(Snapshot());
      served := false;
      if line.Response? && line.id in tables[child].pending {
        var table := tables[child];
        var ticket := table.pending[line.id];
        tables := tables[child := table.(pending := table.pending - {line.id}, taken := table.taken + {line.id})];
        var v := waiters[ticket];
        if v.listening {
          waiters := waiters[ticket := v.(inbox := v.inbox + [Reply(child, line.id, line.body)])];
          served := true;
          assert waiters[ticket] != old(waiters)[ticket];
        }
      }
    }

    method Kill(slug: string)
      requires Valid() && writing.None?
      modifies this
      ensures Valid() && Snapshot() == Step(old(Snapshot()), Action.Kill(slug))
    {
      StaysReachable(Snapshot(), Action.Kill(slug));
      if slug in processes {
        KillChild(processes[slug]);
      }
      processes := processes[slug := Idle];
    }

    /** The first loop of the reaper: which slugs are overdue. */
    method CollectOverdue(idleTimeout: nat) returns (overdue: set<string>)
      ensures overdue == set s | s in processes && Overdue(processes[s], clock, idleTimeout)
    {
      overdue := {};
      var unseen := processes.Keys;
      while unseen != {}
        invariant unseen <= processes.Keys
        invariant overdue == set s | s in processes && s !in unseen && Overdue(processes[s], clock, idleTimeout)
      {
        var slug :| slug in unseen;
        if Overdue(processes[slug], clock, idleTimeout) {
          overdue := overdue + {slug};
        }
        unseen := unseen - {slug};
      }
    }

    /** The second loop of the reaper: the overdue processes are killed and reset one by one. */
    method RecycleAll(overdue: set<string>)
      requires forall s :: s in overdue ==> IsRunning(processes, s)
      modifies this`processes, this`killed
      ensures processes == map s | s in old(processes) :: if s in overdue then Idle else old(processes)[s]
      ensures killed == old(killed) + set s | s in overdue && IsRunning(old(processes), s) :: old(processes)[s].proc.child
    {
      ghost var before := processes;
      var left := overdue;
      while left != {}
        invariant left <= overdue
        invariant processes == map s | s in before :: if s in overdue - left then Idle else before[s]
        invariant killed == old(killed) + set s | s in overdue - left :: before[s].proc.child
      {
        var slug :| slug in left;
        KillChild(processes[slug]);
        processes := processes[slug := Idle];
        left := left - {slug};
      }
      assert overdue - left == overdue;
    }

    /** One pass of the idle reaper. */
    method ReapIdle(idleTimeout: nat)
      requires Valid() && writing.None?
      modifies this
      ensures Valid() && Snapshot() == Step(old(Snapshot()), Reap(idleTimeout))
    {
      StaysReachable(Snapshot(), Reap(idleTimeout));
      var overdue := CollectOverdue(idleTimeout);
      RecycleAll(overdue);
      assert processes == Recycle(old(processes), clock, idleTimeout);
      assert killed == old(killed) + OverdueChildren(old(processes), clock, idleTimeout);
    }

    /** Kills every running child. */
    method KillRunning()
      modifies this`killed
      ensures killed == old(killed) + RunningChildren(processes)
    {
      var left := processes.Keys;
      while left != {}
        invariant left <= processes.Keys
        invariant killed == old(killed) + set s | s in processes && s !in left && processes[s].Running? :: processes[s].proc.child
      {
        var slug :| slug in left;
        KillChild(processes[slug]);
        left := left - {slug};
      }
    }

    /** Resets every entry that is not Idle. */
    method ResetAll()
      modifies this`processes
      ensures processes == AllIdle(old(processes))
    {
      var left := processes.Keys;
      while left != {}
        invariant left <= processes.Keys == old(processes).Keys
        invariant forall s :: s in processes ==> processes[s] == if s in left then old(processes)[s] else Idle
      {
        var slug :| slug in left;
        if processes[slug].Running? || processes[slug].Failed? {
          processes := processes[slug := Idle];
        }
        left := left - {slug};
      }
    }

    /** Kills every running child, then resets every entry. */
    method ShutdownAll()
      requires Valid() && writing.None?
      modifies this
      ensures Valid() && Snapshot() == Step(old(Snapshot()), Shutdown)
    {
      StaysReachable(Snapshot(), Shutdown);
      KillRunning();
      ResetAll();
    }
  }
}
