/**
 The gateway's child-process manager as a step system.

 A World is everything the concurrent tasks share. One Action is one stretch of code that no
 other task can interleave with: what runs under the `processes` lock, under one child's
 `pending_requests` mutex, or in between awaits of a single task. A request is written and its
 waiter registered under one hold of the `processes` lock, but the reader task needs only the
 mutex, so these are two actions with `writing` recording that the lock is held in between.
 An action whose guard fails leaves the world as it was: the task waits, returns or reports.
 */
module Gateway {
  import opened Wrappers

  /** A running child as the `processes` map owns it. */
  datatype OrbProcess = OrbProcess(child: nat, lastUsed: nat, nextId: nat)

  datatype OrbStatus = Idle | Running(proc: OrbProcess) | Failed

  /** Where one call of `ensure_orb` stands after it found the Orb not running. */
  datatype Spawn =
    | Checked(slug: string)
    | Handshaking(slug: string, child: nat, ticket: nat)
    | Ready(slug: string, proc: OrbProcess)
    | Broken(slug: string)
    | Finished

  /** The request whose forwarder holds the lock between writing it and registering its waiter. */
  datatype Forward = Forward(slug: string, child: nat, id: nat)

  datatype Reply = Reply(child: nat, id: nat, body: string)

  /** A one-shot channel: who it waits for, when its request was written, what it received. */
  datatype Waiter = Waiter(child: nat, id: nat, wroteAt: nat, timer: Option<nat>, listening: bool, inbox: seq<Reply>)

  /** A line of a child's stdout as the reader task classifies it. */
  datatype Line = Unparsable | Notification | Response(id: nat, body: string)

  /**
   One child's shared table of pending requests. `issued`, `taken` and `lost` are history: how
   many ids were given out, which the reader removed, which were never registered.
   */
  datatype Table = Table(pending: map<nat, nat>, issued: nat, taken: set<nat>, lost: set<nat>)

  datatype World = World(
    orbs: seq<string>,
    processes: map<string, OrbStatus>,
    tables: seq<Table>,
    tasks: seq<Spawn>,
    waiters: seq<Waiter>,
    killed: set<nat>,
    writing: Option<Forward>,
    clock: nat)

  datatype Action =
    | Tick(elapsed: nat)
    | EnsureCheck(slug: string)
    | LaunchChild(task: nat, launched: bool)
    | HandshakeDone(task: nat)
    | HandshakeFailed(task: nat)
    | InsertResult(task: nat)
    | Abandon(task: nat)
    | WriteRequest(slug: string)
    | WriteFailed
    | RegisterWaiter
    | StartTimer(ticket: nat)
    | GiveUp(ticket: nat)
    | ReadLine(child: nat, line: Line)
    | Kill(slug: string)
    | Reap(idleTimeout: nat)
    | Refresh(found: seq<string>)
    | Shutdown

  // ---------------------------------------------------------------- the steps

  function InitialEntries(orbs: seq<string>): map<string, OrbStatus> {
    map s | s in orbs :: Idle
  }

  function Init(orbs: seq<string>): World {
    World(orbs, InitialEntries(orbs), [], [], [], {}, None, 0)
  }

  predicate IsRunning(processes: map<string, OrbStatus>, slug: string) {
    slug in processes && processes[slug].Running?
  }

  /** The children owned by Running entries. */
  function RunningChildren(processes: map<string, OrbStatus>): set<nat> {
    set s | s in processes && processes[s].Running? :: processes[s].proc.child
  }

  /** The refresh loop: entries move from the old map to the new one, one listed Orb at a time. */
  function Reconcile(found: seq<string>, remaining: map<string, OrbStatus>, kept: map<string, OrbStatus>): map<string, OrbStatus> {
    if found == [] then kept else
    var status := if found[0] in remaining then remaining[found[0]] else Idle;
    Reconcile(found[1..], remaining - {found[0]}, kept[found[0] := status])
  }

  predicate Overdue(status: OrbStatus, clock: nat, idleTimeout: nat) {
    status.Running? && clock - status.proc.lastUsed > idleTimeout
  }

  function Recycle(processes: map<string, OrbStatus>, clock: nat, idleTimeout: nat): map<string, OrbStatus> {
    map s | s in processes :: if Overdue(processes[s], clock, idleTimeout) then Idle else processes[s]
  }

  function OverdueChildren(processes: map<string, OrbStatus>, clock: nat, idleTimeout: nat): set<nat> {
    set s | s in processes && Overdue(processes[s], clock, idleTimeout) :: processes[s].proc.child
  }

  function AllIdle(processes: map<string, OrbStatus>): map<string, OrbStatus> {
    map s | s in processes :: Idle
  }

  function LaunchStep(w: World, task: nat, launched: bool): World
    requires task < |w.tasks| && w.tasks[task].Checked?
  {
    var slug := w.tasks[task].slug;
    if slug !in w.orbs then w.(tasks := w.tasks[task := Finished])
    else if !launched then w.(tasks := w.tasks[task := Broken(slug)])
    else
      var child, ticket := |w.tables|, |w.waiters|;
      w.(tables := w.tables + [Table(map[0 := ticket], 1, {}, {})],
         waiters := w.waiters + [Waiter(child, 0, w.clock, None, true, [])],
         tasks := w.tasks[task := Handshaking(slug, child, ticket)])
  }

  /** Publishing a spawn under the lock: a process that is already running wins. */
  function InsertStep(w: World, task: nat): World
    requires task < |w.tasks| && (w.tasks[task].Ready? || w.tasks[task].Broken?)
  {
    var spawn := w.tasks[task];
    var done := w.(tasks := w.tasks[task := Finished]);
    if IsRunning(w.processes, spawn.slug) then
      if spawn.Ready? then done.(killed := w.killed + {spawn.proc.child}) else done
    else
      done.(processes := w.processes[spawn.slug := if spawn.Ready? then Running(spawn.proc) else Failed])
  }

  function WriteStep(w: World, slug: string): World
    requires IsRunning(w.processes, slug) && w.processes[slug].proc.child < |w.tables|
  {
    var proc := w.processes[slug].proc;
    var table := w.tables[proc.child];
    w.(processes := w.processes[slug := Running(proc.(nextId := proc.nextId + 1))],
       tables := w.tables[proc.child := table.(issued := table.issued + 1)],
       writing := Some(Forward(slug, proc.child, proc.nextId)))
  }

  function LoseStep(w: World): World
    requires w.writing.Some? && w.writing.value.child < |w.tables|
  {
    var f := w.writing.value;
    var table := w.tables[f.child];
    w.(writing := None, tables := w.tables[f.child := table.(lost := table.lost + {f.id})])
  }

  function RegisterStep(w: World): World
    requires w.writing.Some? && w.writing.value.child < |w.tables| && IsRunning(w.processes, w.writing.value.slug)
  {
    var f := w.writing.value;
    var table := w.tables[f.child];
    var proc := w.processes[f.slug].proc;
    w.(writing := None,
       processes := w.processes[f.slug := Running(proc.(lastUsed := w.clock))],
       tables := w.tables[f.child := table.(pending := table.pending[f.id := |w.waiters|])],
       waiters := w.waiters + [Waiter(f.child, f.id, w.clock, None, true, [])])
  }

  /** The reader removes the sender under the mutex, then sends; a receiver that is gone gets nothing. */
  function DeliverStep(w: World, child: nat, id: nat, body: string): World
    requires child < |w.tables| && id in w.tables[child].pending && w.tables[child].pending[id] < |w.waiters|
  {
    var table := w.tables[child];
    var ticket := table.pending[id];
    var waiter := w.waiters[ticket];
    var served := if waiter.listening then waiter.(inbox := waiter.inbox + [Reply(child, id, body)]) else waiter;
    w.(tables := w.tables[child := table.(pending := table.pending - {id}, taken := table.taken + {id})],
       waiters := w.waiters[ticket := served])
  }

  function KillStep(w: World, slug: string): World {
    w.(processes := w.processes[slug := Idle],
       killed := if IsRunning(w.processes, slug) then w.killed + {w.processes[slug].proc.child} else w.killed)
  }

  function RefreshStep(w: World, found: seq<string>): World {
    var kept := Reconcile(found, w.processes, map[]);
    w.(orbs := found, processes := kept,
       killed := w.killed + (RunningChildren(w.processes) - RunningChildren(kept)))
  }

  /** What a spawn that is given up still owns. */
  function SpawnChild(spawn: Spawn): Option<nat> {
    match spawn
    case Handshaking(_, child, _) => Some(child)
    case Ready(_, proc) => Some(proc.child)
    case _ => None
  }

  function Dropped(spawn: Spawn): set<nat> {
    if SpawnChild(spawn).Some? then {SpawnChild(spawn).value} else {}
  }

  function Step(w: World, a: Action): World {
    var free := w.writing.None?;
    match a
    case Tick(elapsed) => w.(clock := w.clock + elapsed)
    case EnsureCheck(slug) =>
      if free && slug in w.processes && !w.processes[slug].Running? then w.(tasks := w.tasks + [Checked(slug)]) else w
    case LaunchChild(t, launched) =>
      if t < |w.tasks| && w.tasks[t].Checked? then LaunchStep(w, t, launched) else w
    case HandshakeDone(t) =>
      if t < |w.tasks| && w.tasks[t].Handshaking? && w.tasks[t].ticket < |w.waiters| && w.waiters[w.tasks[t].ticket].inbox != []
      then w.(tasks := w.tasks[t := Ready(w.tasks[t].slug, OrbProcess(w.tasks[t].child, w.clock, 1))]) else w
    case HandshakeFailed(t) =>
      if t < |w.tasks| && w.tasks[t].Handshaking?
      then w.(tasks := w.tasks[t := Broken(w.tasks[t].slug)], killed := w.killed + {w.tasks[t].child}) else w
    case InsertResult(t) =>
      if free && t < |w.tasks| && (w.tasks[t].Ready? || w.tasks[t].Broken?) then InsertStep(w, t) else w
    case Abandon(t) =>
      if t < |w.tasks| then w.(tasks := w.tasks[t := Finished], killed := w.killed + Dropped(w.tasks[t])) else w
    case WriteRequest(slug) =>
      if free && IsRunning(w.processes, slug) && w.processes[slug].proc.child < |w.tables| then WriteStep(w, slug) else w
    case WriteFailed =>
      if w.writing.Some? && w.writing.value.child < |w.tables| then LoseStep(w) else w
    case RegisterWaiter =>
      if w.writing.Some? && w.writing.value.child < |w.tables| && IsRunning(w.processes, w.writing.value.slug)
      then RegisterStep(w) else w
    case StartTimer(k) =>
      if k < |w.waiters| && w.waiters[k].timer.None? then w.(waiters := w.waiters[k := w.waiters[k].(timer := Some(w.clock))]) else w
    case GiveUp(k) =>
      if k < |w.waiters| then w.(waiters := w.waiters[k := w.waiters[k].(listening := false)]) else w
    case ReadLine(c, line) =>
      if line.Response? && c < |w.tables| && line.id in w.tables[c].pending && w.tables[c].pending[line.id] < |w.waiters|
      then DeliverStep(w, c, line.id, line.body) else w
    case Kill(slug) => if free then KillStep(w, slug) else w
    case Reap(idle) =>
      if free then w.(processes := Recycle(w.processes, w.clock, idle),
                      killed := w.killed + OverdueChildren(w.processes, w.clock, idle)) else w
    case Refresh(found) => if free then RefreshStep(w, found) else w
    case Shutdown =>
      if free then w.(processes := AllIdle(w.processes), killed := w.killed + RunningChildren(w.processes)) else w
  }

  function Exec(w: World, acts: seq<Action>): World
    decreases |acts|
  {
    if acts == [] then w else Exec(Step(w, acts[0]), acts[1..])
  }
}
