/** What a whole call achieves in any world it starts from, and which steps alone may start, launch and hold. */
module GatewayCalls {
  import opened Wrappers
  import opened Gateway
  import opened GatewaySafety
  import opened GatewayTheorems

  // ---------------------------------------------------------------- ensure_orb

  /** A call that finds a listed Orb not running, launches its child, hears from it and publishes it. */
  function Spawned(w: World, s: string, body: string): seq<Action> {
    [EnsureCheck(s)] + ([LaunchChild(|w.tasks|, true)] + ([ReadLine(|w.tables|, Response(0, body))]
    + ([HandshakeDone(|w.tasks|)] + ([InsertResult(|w.tasks|)] + []))))
  }

  /** It leaves the Orb running with a fresh child that has answered id 0 and is due id 1, and nothing else changed. */
  lemma SpawnPublishes(w: World, s: string, body: string)
    requires w.writing.None? && s in w.orbs && s in w.processes && !IsRunning(w.processes, s)
    ensures var c := |w.tables|;
            Exec(w, Spawned(w, s, body)) ==
            w.(processes := w.processes[s := Running(OrbProcess(c, w.clock, 1))],
               tables := w.tables + [Table(map[], 1, {0}, {})],
               tasks := w.tasks + [Finished],
               waiters := w.waiters + [Waiter(c, 0, w.clock, None, true, [Reply(c, 0, body)])])
  {
    var c, n, k := |w.tables|, |w.tasks|, |w.waiters|;
    var launched := w.(tables := w.tables + [Table(map[0 := k], 1, {}, {})],
                       waiters := w.waiters + [Waiter(c, 0, w.clock, None, true, [])],
                       tasks := w.tasks + [Handshaking(s, c, k)]);
    var rest := [HandshakeDone(n)] + ([InsertResult(n)] + []);
    ExecThree(w, EnsureCheck(s), LaunchChild(n, true), ReadLine(c, Response(0, body)), rest);
    Launches(w, s);
    Hears(launched, s, n, c, k, body);
    var heard := Step(launched, ReadLine(c, Response(0, body)));
    Turn(heard, HandshakeDone(n), [InsertResult(n)] + []);
    Turn(Step(heard, HandshakeDone(n)), InsertResult(n), []);
    Publishes(heard, s, n, c);
    assert heard.tasks[n := Finished] == w.tasks + [Finished];
    assert heard.tables == w.tables + [Table(map[], 1, {0}, {})];
    assert heard.waiters == w.waiters + [Waiter(c, 0, w.clock, None, true, [Reply(c, 0, body)])];
  }

  lemma Launches(w: World, s: string)
    requires w.writing.None? && s in w.orbs && s in w.processes && !IsRunning(w.processes, s)
    ensures Step(Step(w, EnsureCheck(s)), LaunchChild(|w.tasks|, true)) ==
            w.(tables := w.tables + [Table(map[0 := |w.waiters|], 1, {}, {})],
               waiters := w.waiters + [Waiter(|w.tables|, 0, w.clock, None, true, [])],
               tasks := w.tasks + [Handshaking(s, |w.tables|, |w.waiters|)])
  {
    var n := |w.tasks|;
    assert (w.tasks + [Checked(s)])[n := Handshaking(s, |w.tables|, |w.waiters|)] == w.tasks + [Handshaking(s, |w.tables|, |w.waiters|)];
  }

  lemma Hears(w: World, s: string, n: nat, c: nat, k: nat, body: string)
    requires |w.tables| == c + 1 && |w.waiters| == k + 1 && |w.tasks| == n + 1
    requires w.tables[c] == Table(map[0 := k], 1, {}, {}) && w.tasks[n] == Handshaking(s, c, k)
    requires w.waiters[k].inbox == [] && w.waiters[k].listening
    ensures var v := Step(w, ReadLine(c, Response(0, body)));
            && v == w.(tables := w.tables[c := Table(map[], 1, {0}, {})], waiters := w.waiters[k := w.waiters[k].(inbox := [Reply(c, 0, body)])])
  {
    var v := Step(w, ReadLine(c, Response(0, body)));
    assert v == DeliverStep(w, c, 0, body);
    assert [] + [Reply(c, 0, body)] == [Reply(c, 0, body)];
    assert map[0 := k] - {0} == map[];
    assert {} + {0} == {0};
  }

  lemma Publishes(w: World, s: string, n: nat, c: nat)
    requires w.writing.None? && !IsRunning(w.processes, s) && n < |w.tasks|
    requires w.tasks[n].Handshaking? && w.tasks[n].slug == s && w.tasks[n].child == c
    requires w.tasks[n].ticket < |w.waiters| && w.waiters[w.tasks[n].ticket].inbox != []
    ensures Step(Step(w, HandshakeDone(n)), InsertResult(n)) ==
            w.(tasks := w.tasks[n := Finished], processes := w.processes[s := Running(OrbProcess(c, w.clock, 1))])
  {
    assert w.tasks[n := Ready(s, OrbProcess(c, w.clock, 1))][n := Finished] == w.tasks[n := Finished];
  }

  /** A child that cannot be launched leaves the Orb Failed. */
  lemma LaunchFailureIsPublished(w: World, s: string)
    requires w.writing.None? && s in w.orbs && s in w.processes && !IsRunning(w.processes, s)
    ensures Step(Step(Step(w, EnsureCheck(s)), LaunchChild(|w.tasks|, false)), InsertResult(|w.tasks|)) ==
            w.(processes := w.processes[s := Failed], tasks := w.tasks + [Finished])
  {
    var n := |w.tasks|;
    assert (w.tasks + [Checked(s)])[n := Broken(s)] == w.tasks + [Broken(s)];
    assert (w.tasks + [Broken(s)])[n := Finished] == w.tasks + [Finished];
  }

  /** One that does not answer in time is killed, and the Orb is Failed. */
  lemma SilenceIsPublished(w: World, s: string)
    requires w.writing.None? && s in w.orbs && s in w.processes && !IsRunning(w.processes, s)
    ensures var n := |w.tasks|;
            var v := Step(Step(Step(Step(w, EnsureCheck(s)), LaunchChild(n, true)), HandshakeFailed(n)), InsertResult(n));
            v.processes == w.processes[s := Failed] && v.tasks == w.tasks + [Finished] && v.killed == w.killed + {|w.tables|}
  {
    var n := |w.tasks|;
    Launches(w, s);
    var tasks := w.tasks + [Handshaking(s, |w.tables|, |w.waiters|)];
    assert tasks[n := Broken(s)][n := Finished] == w.tasks + [Finished];
  }

  /** A spawn starts for an entry that is not running, under the lock, and in no other way. */
  lemma SpawnStartsIff(w: World, a: Action)
    ensures |Step(w, a).tasks| > |w.tasks| <==>
            a.EnsureCheck? && w.writing.None? && a.slug in w.processes && !IsRunning(w.processes, a.slug)
  {}

  /** A child is launched for a spawn of a listed Orb, and in no other way; one of an unlisted Orb ends there. */
  lemma ChildLaunchedIff(w: World, a: Action)
    ensures |Step(w, a).tables| > |w.tables| <==>
            a.LaunchChild? && a.launched && a.task < |w.tasks| && w.tasks[a.task].Checked? && w.tasks[a.task].slug in w.orbs
    ensures a.LaunchChild? && a.task < |w.tasks| && w.tasks[a.task].Checked? && w.tasks[a.task].slug !in w.orbs ==>
              Step(w, a) == w.(tasks := w.tasks[a.task := Finished])
  {}

  /** An entry becomes running by the insertion of a ready spawn that nobody was faster than, and in no other way. */
  lemma PublishedIff(w: World, a: Action, s: string)
    ensures !IsRunning(w.processes, s) && IsRunning(Step(w, a).processes, s) <==>
            && a.InsertResult? && w.writing.None? && a.task < |w.tasks| && w.tasks[a.task].Ready? && w.tasks[a.task].slug == s
            && !IsRunning(w.processes, s)
  {
    if a.Refresh? {
      RefreshExactly(a.found, w.processes);
    }
  }

  /** The slower of two spawns loses its child, and leaves the entry. */
  lemma SlowerSpawnLoses(w: World, t: nat)
    requires w.writing.None? && t < |w.tasks| && w.tasks[t].Ready? && IsRunning(w.processes, w.tasks[t].slug)
    ensures Step(w, InsertResult(t)) == w.(tasks := w.tasks[t := Finished], killed := w.killed + {w.tasks[t].proc.child})
  {}

  /** A spawn that is given up ends, and takes with it the child it holds and no other. */
  lemma AbandonedIsKilled(w: World, t: nat, c: nat)
    requires t < |w.tasks|
    ensures var v := Step(w, Abandon(t));
            && v.tasks == w.tasks[t := Finished] && v.processes == w.processes
            && (c in v.killed <==> c in w.killed || SpawnHolds(w.tasks, t, c))
  {}

  // ---------------------------------------------------------------- forward_request

  /** A forwarded request takes the next id, stamps the entry and gets its reply. */
  lemma ForwardDelivers(w: World, s: string, body: string)
    requires Inv(w) && w.writing.None? && IsRunning(w.processes, s)
    ensures var p := w.processes[s].proc;
            var t := w.tables[p.child];
            Step(Step(Step(w, WriteRequest(s)), RegisterWaiter), ReadLine(p.child, Response(p.nextId, body))) ==
            w.(processes := w.processes[s := Running(OrbProcess(p.child, w.clock, p.nextId + 1))],
               tables := w.tables[p.child := t.(issued := t.issued + 1, taken := t.taken + {p.nextId})],
               waiters := w.waiters + [Waiter(p.child, p.nextId, w.clock, None, true, [Reply(p.child, p.nextId, body)])])
  {
    var p := w.processes[s].proc;
    var t := w.tables[p.child];
    var k := |w.waiters|;
    var registered := w.(processes := w.processes[s := Running(OrbProcess(p.child, w.clock, p.nextId + 1))],
                         tables := w.tables[p.child := t.(issued := t.issued + 1, pending := t.pending[p.nextId := k])],
                         waiters := w.waiters + [Waiter(p.child, p.nextId, w.clock, None, true, [])]);
    Registers(w, s);
    NextIsNew(w, s);
    Delivers(registered, p.child, p.nextId, k, body);
    assert t.pending[p.nextId := k] - {p.nextId} == t.pending;
    var v := Step(registered, ReadLine(p.child, Response(p.nextId, body)));
    assert v.waiters == w.waiters + [Waiter(p.child, p.nextId, w.clock, None, true, [Reply(p.child, p.nextId, body)])];
    assert v.tables == w.tables[p.child := t.(issued := t.issued + 1, taken := t.taken + {p.nextId})];
  }

  lemma Delivers(w: World, c: nat, id: nat, k: nat, body: string)
    requires c < |w.tables| && id in w.tables[c].pending && w.tables[c].pending[id] == k < |w.waiters|
    requires w.waiters[k].listening && w.waiters[k].inbox == []
    ensures var t := w.tables[c];
            Step(w, ReadLine(c, Response(id, body))) ==
            w.(tables := w.tables[c := t.(pending := t.pending - {id}, taken := t.taken + {id})],
               waiters := w.waiters[k := w.waiters[k].(inbox := [Reply(c, id, body)])])
  {
    assert [] + [Reply(c, id, body)] == [Reply(c, id, body)];
  }

  lemma NextIsNew(w: World, s: string)
    requires Inv(w) && w.writing.None? && IsRunning(w.processes, s)
    ensures w.processes[s].proc.nextId !in w.tables[w.processes[s].proc.child].pending
  {
    var p := w.processes[s].proc;
    assert IdsSplit(w.tables[p.child], Unregistered(w.writing, p.child));
  }

  lemma Registers(w: World, s: string)
    requires Inv(w) && w.writing.None? && IsRunning(w.processes, s)
    ensures var p := w.processes[s].proc;
            var t := w.tables[p.child];
            Step(Step(w, WriteRequest(s)), RegisterWaiter) ==
            w.(processes := w.processes[s := Running(OrbProcess(p.child, w.clock, p.nextId + 1))],
               tables := w.tables[p.child := t.(issued := t.issued + 1, pending := t.pending[p.nextId := |w.waiters|])],
               waiters := w.waiters + [Waiter(p.child, p.nextId, w.clock, None, true, [])])
  {
    var p := w.processes[s].proc;
    var v := Step(w, WriteRequest(s));
    assert v.processes[s := Running(OrbProcess(p.child, w.clock, p.nextId + 1))] == w.processes[s := Running(OrbProcess(p.child, w.clock, p.nextId + 1))];
  }

  /** One whose write fails uses up its id, and frees the lock. */
  lemma ForwardLoses(w: World, s: string)
    requires Inv(w) && w.writing.None? && IsRunning(w.processes, s)
    ensures var p := w.processes[s].proc;
            var t := w.tables[p.child];
            Step(Step(w, WriteRequest(s)), WriteFailed) ==
            w.(processes := w.processes[s := Running(p.(nextId := p.nextId + 1))],
               tables := w.tables[p.child := t.(issued := t.issued + 1, lost := t.lost + {p.nextId})])
  {}

  /** While a forwarder holds the lock nobody else touches the map, and it lets go by registering or by failing only. */
  lemma LockIsExclusive(w: World, a: Action)
    requires Inv(w) && w.writing.Some?
    ensures Step(w, a).writing == if a.RegisterWaiter? || a.WriteFailed? then None else w.writing
    ensures !a.RegisterWaiter? ==> Step(w, a).processes == w.processes && Step(w, a).orbs == w.orbs
  {
    HolderIsThere(w);
    if !(a.RegisterWaiter? || a.WriteFailed?) {
      OthersWait(w, a);
    }
  }

  lemma HolderIsThere(w: World)
    requires Inv(w) && w.writing.Some?
    ensures w.writing.value.child < |w.tables| && IsRunning(w.processes, w.writing.value.slug)
  {}

  lemma OthersWait(w: World, a: Action)
    requires w.writing.Some? && !(a.RegisterWaiter? || a.WriteFailed?)
    ensures Step(w, a).writing == w.writing && Step(w, a).processes == w.processes && Step(w, a).orbs == w.orbs
  {}

  /** It is taken by writing to a running entry only. */
  lemma LockTakenIff(w: World, a: Action)
    requires Inv(w) && w.writing.None?
    ensures Step(w, a).writing.Some? <==> a.WriteRequest? && IsRunning(w.processes, a.slug)
  {}
}
