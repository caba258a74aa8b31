/** The worker pool of one scan pass as a transition system.

    A state holds the shared atomics and mutex-guarded vectors, the program counter of every
    spawned worker and of the spawning thread, and two auxiliary ledgers that no step reads:
    `filings`, the order in which items were disposed of, and `places`, who answers for each
    claimed index. One action is one atomic or locked operation; a schedule picks the actions. */
module ScanMachine {
  import opened Net

  const PROGRESS_EVERY: nat := 5_000

  datatype AdbKind = Plain | Tls | Open

  datatype ConnectOutcome = Accepted | Refused | TimedOut

  /** One (target, port) work item; `id` tags its position in the first pass. */
  datatype Work = Work(id: nat, targetIdx: nat, port: U16)

  datatype Hit = Hit(target: Target, port: U16, kind: AdbKind)

  datatype SkipReason = HitFound | Cancelled

  datatype ScanEvent =
    | PassStarted(pass: nat, workItems: nat)
    | Progress(pass: nat, done: nat, total: nat)
    | PortHit(hit: Hit)
    | PassSkipped(pass: nat, remaining: nat, reason: SkipReason)
    | ThreadsSpawned(pass: nat, requested: nat, actual: nat)

  datatype ScanCfg = ScanCfg(
    targets: seq<Target>, ports: seq<U16>, threads: nat, verifyAdb: bool, stopOnFirst: bool)

  /** What the network answers: a connect outcome and a probe verdict for each (pass, item). */
  datatype Network = Network(connect: (nat, nat) -> ConnectOutcome, probe: (nat, nat) -> AdbKind)

  predicate IsAdb(kind: AdbKind) {
    kind.Plain? || kind.Tls?
  }

  predicate HasAdb(hits: seq<Hit>) {
    exists h :: h in hits && IsAdb(h.kind)
  }

  /** Everything a pass takes as given. */
  datatype PassEnv = PassEnv(cfg: ScanCfg, net: Network, pass: nat, work: seq<Work>, hits0: seq<Hit>) {

    ghost predicate Valid() {
      forall i :: 0 <= i < |work| ==> work[i].targetIdx < |cfg.targets|
    }

    function Outcome(i: nat): ConnectOutcome
      requires i < |work|
    {
      net.connect(pass, work[i].id)
    }

    function Kind(i: nat): AdbKind
      requires i < |work|
    {
      if cfg.verifyAdb then net.probe(pass, work[i].id) else AdbKind.Open
    }

    function HitAt(i: nat): Hit
      requires Valid() && i < |work|
    {
      Hit(cfg.targets[work[i].targetIdx], work[i].port, Kind(i))
    }

    predicate Stops(i: nat)
      requires i < |work|
    {
      cfg.stopOnFirst && IsAdb(Kind(i))
    }

    function Threads(): nat {
      var capped := if cfg.threads < |work| then cfg.threads else |work|;
      if capped < 1 then 1 else capped
    }
  }

  /** Where a worker stands; the constructor names the operation it performs next. */
  datatype Pc =
    | LoadStop
    | LoadCancel
    | Claim
    | Connect(idx: nat)
    | PushPending(idx: nat)
    | PreStop(idx: nat)
    | PreCancel(idx: nat)
    | Probe(idx: nat)
    | PostStop(idx: nat)
    | PostCancel(idx: nat)
    | EmitHit(idx: nat)
    | PushHit(idx: nat)
    | RaiseStop(raised: nat)
    | CountScanned
    | EmitProgress(done: nat)
    | Exited
  {
    /** The worker holds a claimed item that is not disposed of yet. */
    predicate Holds() {
      Connect? || PushPending? || PreStop? || PreCancel? || Probe? || PostStop? || PostCancel?
      || EmitHit? || PushHit?
    }
  }

  datatype Spawner = Spawning | Announcing | Joining

  datatype Fate = Closed | Pending | Dropped | Suppressed | Recorded

  /** Index `idx` was disposed of by `worker`; `late` says the stop flag was already up. */
  datatype Filing = Filing(idx: nat, fate: Fate, worker: nat, late: bool)

  datatype Place = Flight(worker: nat) | Filed(at: nat)

  datatype PassState = PassState(
    next: nat,
    scanned: nat,
    hits: seq<Hit>,
    pending: seq<Work>,
    localStop: bool,
    cancel: bool,
    events: seq<ScanEvent>,
    workers: seq<Pc>,
    spawner: Spawner,
    filings: seq<Filing>,
    places: map<nat, Place>)

  datatype Action = Spawn | StopSpawning | Announce | Step(worker: nat) | Cancel

  /** A pass starts from the flags it finds; `stop` is shared between the passes. */
  function Init(env: PassEnv, stop: bool, cancel: bool): PassState {
    PassState(0, 0, env.hits0, [], stop, cancel, [], [], Spawning, [], map[])
  }

  predicate InRange(env: PassEnv, pc: Pc) {
    pc.Holds() ==> pc.idx < |env.work|
  }

  predicate Enabled(env: PassEnv, s: PassState, a: Action) {
    match a
    case Spawn => s.spawner.Spawning? && |s.workers| < env.Threads()
    case StopSpawning => s.spawner.Spawning?
    case Announce => s.spawner.Announcing?
    case Step(w) => w < |s.workers| && !s.workers[w].Exited? && InRange(env, s.workers[w])
    case Cancel => !s.cancel
  }

  /** What one worker operation does to the shared state, and where the worker goes. */
  datatype Effect =
    | Goto(pc: Pc)                              // a load, or a decision on local values
    | ClaimNext                                 // next.fetch_add(1)
    | Log(event: ScanEvent, pc: Pc)             // the event callback
    | Dispose(idx: nat, fate: Fate, pc: Pc)     // the item leaves the worker's hands
    | RaiseFlag(pc: Pc)                         // local_stop.store(true)
    | CountOne                                  // scanned.fetch_add(1)

  /** The operation that a worker standing at `pc` performs in state `s`. */
  function React(env: PassEnv, s: PassState, pc: Pc): Effect
    requires env.Valid() && InRange(env, pc)
  {
    match pc
    case LoadStop => Goto(if s.localStop then Exited else LoadCancel)
    case LoadCancel => Goto(if s.cancel then Exited else Claim)
    case Claim => ClaimNext
    case Connect(i) => (
      match env.Outcome(i)
      case Refused => Dispose(i, Closed, CountScanned)
      case TimedOut => if env.pass == 1 then Goto(PushPending(i)) else Dispose(i, Dropped, CountScanned)
      case Accepted => Goto(PreStop(i)))
    case PushPending(i) => Dispose(i, Pending, CountScanned)
    case PreStop(i) => if s.localStop then Dispose(i, Suppressed, CountScanned) else Goto(PreCancel(i))
    case PreCancel(i) => if s.cancel then Dispose(i, Suppressed, CountScanned) else Goto(Probe(i))
    case Probe(i) => Goto(PostStop(i))
    case PostStop(i) => if s.localStop then Dispose(i, Suppressed, CountScanned) else Goto(PostCancel(i))
    case PostCancel(i) => if s.cancel then Dispose(i, Suppressed, CountScanned) else Goto(EmitHit(i))
    case EmitHit(i) => Log(PortHit(env.HitAt(i)), PushHit(i))
    case PushHit(i) => Dispose(i, Recorded, if env.Stops(i) then RaiseStop(i) else CountScanned)
    case RaiseStop(_) => RaiseFlag(CountScanned)
    case CountScanned => CountOne
    case EmitProgress(done) => Log(Progress(env.pass, done, |env.work|), LoadStop)
    case Exited => Goto(Exited)
  }

  /** Carry out an operation of worker `w`. */
  function Apply(env: PassEnv, s: PassState, w: nat, e: Effect): PassState
    requires env.Valid() && w < |s.workers|
    requires e.Dispose? ==> e.idx < |env.work|
  {
    match e
    case Goto(pc) => s.(workers := s.workers[w := pc])
    case ClaimNext =>
      if s.next < |env.work|
      then s.(next := s.next + 1, places := s.places[s.next := Flight(w)],
              workers := s.workers[w := Connect(s.next)])
      else s.(next := s.next + 1, workers := s.workers[w := Exited])
    case Log(event, pc) => s.(events := s.events + [event], workers := s.workers[w := pc])
    case Dispose(i, fate, pc) =>
      s.(hits := s.hits + (if fate.Recorded? then [env.HitAt(i)] else []),
         pending := s.pending + (if fate.Pending? then [env.work[i]] else []),
         filings := s.filings + [Filing(i, fate, w, s.localStop)],
         places := s.places[i := Filed(|s.filings|)],
         workers := s.workers[w := pc])
    case RaiseFlag(pc) => s.(localStop := true, workers := s.workers[w := pc])
    case CountOne =>
      var done := s.scanned + 1;
      s.(scanned := done,
         workers := s.workers[w := if done % PROGRESS_EVERY == 0 then EmitProgress(done) else LoadStop])
  }

  function Next(env: PassEnv, s: PassState, a: Action): PassState
    requires env.Valid() && Enabled(env, s, a)
  {
    match a
    case Spawn => s.(workers := s.workers + [LoadStop])
    case StopSpawning => s.(spawner := Announcing)
    case Announce =>
      var log := if |s.workers| != env.cfg.threads
                 then s.events + [ThreadsSpawned(env.pass, env.cfg.threads, |s.workers|)] else s.events;
      s.(spawner := Joining, events := log)
    case Step(w) => Apply(env, s, w, React(env, s, s.workers[w]))
    case Cancel => s.(cancel := true)
  }

  /** The spawning thread is in its join loop and every worker has left. */
  ghost predicate Joined(s: PassState) {
    s.spawner.Joining? && forall w :: 0 <= w < |s.workers| ==> s.workers[w].Exited?
  }

  /** `states` is what `schedule` makes of a pass started with the given flags. */
  ghost predicate IsRun(env: PassEnv, stop: bool, cancel: bool, schedule: seq<Action>, states: seq<PassState>)
    requires env.Valid()
  {
    && |states| == |schedule| + 1
    && states[0] == Init(env, stop, cancel)
    && forall k :: 0 <= k < |schedule| ==>
         Enabled(env, states[k], schedule[k]) && states[k + 1] == Next(env, states[k], schedule[k])
  }
}
