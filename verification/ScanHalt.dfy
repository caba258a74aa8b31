/** What is still possible once a pass is stopped or cancelled: little, and soon over. */
module ScanHalt {
  import opened Sequences
  import opened ScanMachine
  import opened ScanInvariants
  import opened ScanRuns
  import opened ScanTermination

  ghost predicate Halted(s: PassState) {
    s.localStop || s.cancel
  }

  /** A worker past both tests at the loop head may claim one more item. */
  function MayClaim(cancel: bool): Pc -> nat {
    (pc: Pc) => if pc.Claim? || (pc.LoadCancel? && !cancel) then 1 else 0
  }

  /** A worker past both tests behind the probe may record one more hit. */
  function MayRecord(cancel: bool): Pc -> nat {
    (pc: Pc) => if pc.EmitHit? || pc.PushHit? || (pc.PostCancel? && !cancel) then 1 else 0
  }

  /** A worker past both tests behind the probe may announce one more hit, until it has. */
  function MayAnnounce(cancel: bool): Pc -> nat {
    (pc: Pc) => if pc.EmitHit? || (pc.PostCancel? && !cancel) then 1 else 0
  }

  /** A worker with an item, or that may claim one, may count one more item. */
  function MayCount(cancel: bool): Pc -> nat {
    (pc: Pc) =>
      if pc.Holds() || pc.RaiseStop? || pc.CountScanned? || pc.Claim? || (pc.LoadCancel? && !cancel) then 1 else 0
  }

  /** Operations a worker of a halted pass can still perform. */
  function Remaining(cancel: bool): Pc -> nat {
    (pc: Pc) =>
      match pc
      case Exited => 0
      case LoadStop => 2
      case EmitProgress(_) => 3
      case CountScanned => 4
      case RaiseStop(_) => 5
      case PushHit(_) => 6
      case EmitHit(_) => 7
      case PostCancel(_) => 8
      case PostStop(_) => 9
      case Probe(_) => 10
      case PreCancel(_) => 11
      case PreStop(_) => 12
      case PushPending(_) => 12
      case Connect(_) => 13
      case Claim => 14
      case LoadCancel => if cancel then 1 else 15
  }

  function ClaimsLeft(s: PassState): nat {
    Sum(MayClaim(s.cancel), s.workers)
  }

  function HitsLeft(s: PassState): nat {
    Sum(MayRecord(s.cancel), s.workers)
  }

  function AnnouncementsLeft(s: PassState): nat {
    Sum(MayAnnounce(s.cancel), s.workers)
  }

  function CountsLeft(s: PassState): nat {
    Sum(MayCount(s.cancel), s.workers)
  }

  function OfHit(e: ScanEvent): nat {
    if e.PortHit? then 1 else 0
  }

  /** The number of PortHit events. */
  function PortHits(events: seq<ScanEvent>): nat {
    Sum(OfHit, events)
  }

  function StepsLeft(env: PassEnv, s: PassState): nat {
    Sum(Remaining(s.cancel), s.workers) + SpawnerRank(env, s) + if s.cancel then 0 else 1
  }

  /** How one operation of a halted pass moves its worker, and what it adds. */
  predicate Halting(cancel: bool, pc: Pc, to: Pc, claims: int, records: int, announced: int, counts: int) {
    && Remaining(cancel)(to) < Remaining(cancel)(pc)
    && claims + MayClaim(cancel)(to) <= MayClaim(cancel)(pc)
    && records + MayRecord(cancel)(to) <= MayRecord(cancel)(pc)
    && announced + MayAnnounce(cancel)(to) <= MayAnnounce(cancel)(pc)
    && counts + MayCount(cancel)(to) <= MayCount(cancel)(pc)
  }

  predicate WindsDown(env: PassEnv, s: PassState, pc: Pc, e: Effect) {
    match e
    case Goto(to) => Halting(s.cancel, pc, to, 0, 0, 0, 0)
    case Log(event, to) => Halting(s.cancel, pc, to, 0, 0, OfHit(event), 0)
    case Dispose(i, fate, to) =>
      i < |env.work| && Halting(s.cancel, pc, to, 0, if fate.Recorded? then 1 else 0, 0, 0)
    case RaiseFlag(to) => Halting(s.cancel, pc, to, 0, 0, 0, 0)
    case ClaimNext => pc.Claim?
    case CountOne => pc.CountScanned?
  }

  lemma ReactWindsDown(env: PassEnv, s: PassState, pc: Pc)
    requires env.Valid() && InRange(env, pc) && !pc.Exited? && Halted(s)
    ensures WindsDown(env, s, pc, React(env, s, pc))
  {
    hide PassEnv.HitAt, PassEnv.Kind, React;
    if pc.Holds() {
      HolderWindsDown(env, s, pc);
    } else {
      OtherWindsDown(env, s, pc);
    }
  }

  lemma HolderWindsDown(env: PassEnv, s: PassState, pc: Pc)
    requires env.Valid() && InRange(env, pc) && pc.Holds() && Halted(s)
    ensures WindsDown(env, s, pc, React(env, s, pc))
  {
    hide PassEnv.HitAt, PassEnv.Kind, PassEnv.Outcome, PassEnv.Stops;
  }

  lemma OtherWindsDown(env: PassEnv, s: PassState, pc: Pc)
    requires env.Valid() && InRange(env, pc) && !pc.Holds() && !pc.Exited? && Halted(s)
    ensures WindsDown(env, s, pc, React(env, s, pc))
  {
    hide PassEnv.HitAt, PassEnv.Kind;
  }

  lemma StepHalting(env: PassEnv, s: PassState, w: nat, e: Effect)
    requires env.Valid() && w < |s.workers| && Halted(s) && WindsDown(env, s, s.workers[w], e)
    ensures var t := Apply(env, s, w, e);
            && t.cancel == s.cancel && Halted(t) && t.spawner == s.spawner
            && t.workers == s.workers[w := t.workers[w]]
            && Halting(s.cancel, s.workers[w], t.workers[w],
                       t.next - s.next, |t.hits| - |s.hits|, PortHits(t.events) - PortHits(s.events), t.scanned - s.scanned)
  {
    hide PassEnv.HitAt, PortHits, OfHit;
    if e.Log? {
      PortHitsAppend(s.events, e.event);
    }
  }

  lemma PortHitsAppend(events: seq<ScanEvent>, e: ScanEvent)
    ensures PortHits(events + [e]) == PortHits(events) + OfHit(e)
  {
    assert (events + [e])[..|events|] == events;
  }

  /** In a halted pass no action makes more claims, hits, announcements or counts possible, and each
      uses up a step. */
  lemma HaltedNext(env: PassEnv, s: PassState, a: Action)
    requires env.Valid() && Enabled(env, s, a) && Halted(s)
    ensures var t := Next(env, s, a);
            && Halted(t)
            && t.next + ClaimsLeft(t) <= s.next + ClaimsLeft(s)
            && |t.hits| + HitsLeft(t) <= |s.hits| + HitsLeft(s)
            && PortHits(t.events) + AnnouncementsLeft(t) <= PortHits(s.events) + AnnouncementsLeft(s)
            && t.scanned + CountsLeft(t) <= s.scanned + CountsLeft(s)
            && StepsLeft(env, t) < StepsLeft(env, s)
  {
    hide PortHits, React, Apply;
    var t := Next(env, s, a);
    match a
    case Step(w) => HaltedStep(env, s, w);
    case Cancel =>
      SumMonotone(MayClaim(true), MayClaim(false), s.workers);
      SumMonotone(MayRecord(true), MayRecord(false), s.workers);
      SumMonotone(MayAnnounce(true), MayAnnounce(false), s.workers);
      SumMonotone(MayCount(true), MayCount(false), s.workers);
      SumMonotone(Remaining(true), Remaining(false), s.workers);
    case Spawn =>
      assert t.workers[..|s.workers|] == s.workers;
    case Announce =>
      PortHitsAppend(s.events, ThreadsSpawned(env.pass, env.cfg.threads, |s.workers|));
    case _ =>
  }

  lemma HaltedStep(env: PassEnv, s: PassState, w: nat)
    requires env.Valid() && Enabled(env, s, Step(w)) && Halted(s)
    ensures var t := Next(env, s, Step(w));
            && Halted(t)
            && t.next + ClaimsLeft(t) <= s.next + ClaimsLeft(s)
            && |t.hits| + HitsLeft(t) <= |s.hits| + HitsLeft(s)
            && PortHits(t.events) + AnnouncementsLeft(t) <= PortHits(s.events) + AnnouncementsLeft(s)
            && t.scanned + CountsLeft(t) <= s.scanned + CountsLeft(s)
            && StepsLeft(env, t) < StepsLeft(env, s)
  {
    hide PortHits, React, Apply, Sum, InRange, PassEnv.Threads;
    var t := Next(env, s, Step(w));
    ReactWindsDown(env, s, s.workers[w]);
    StepHalting(env, s, w, React(env, s, s.workers[w]));
    SumUpdate(MayClaim(s.cancel), s.workers, w, t.workers[w]);
    SumUpdate(MayRecord(s.cancel), s.workers, w, t.workers[w]);
    SumUpdate(MayAnnounce(s.cancel), s.workers, w, t.workers[w]);
    SumUpdate(MayCount(s.cancel), s.workers, w, t.workers[w]);
    SumUpdate(Remaining(s.cancel), s.workers, w, t.workers[w]);
  }

  lemma {:induction false} SinceHalt(
    env: PassEnv, stop: bool, cancel: bool, schedule: seq<Action>, states: seq<PassState>, halt: nat, at: nat)
    requires env.Valid() && IsRun(env, stop, cancel, schedule, states) && halt <= at < |states|
    requires Halted(states[halt])
    ensures var s, t := states[halt], states[at];
            && Halted(t)
            && t.next + ClaimsLeft(t) <= s.next + ClaimsLeft(s)
            && |t.hits| + HitsLeft(t) <= |s.hits| + HitsLeft(s)
            && PortHits(t.events) + AnnouncementsLeft(t) <= PortHits(s.events) + AnnouncementsLeft(s)
            && t.scanned + CountsLeft(t) <= s.scanned + CountsLeft(s)
            && (at - halt) + StepsLeft(env, t) <= StepsLeft(env, s)
  {
    hide Next, Enabled, Init, ClaimsLeft, HitsLeft, AnnouncementsLeft, CountsLeft, StepsLeft, PortHits, Halted;
    if halt < at {
      SinceHalt(env, stop, cancel, schedule, states, halt, at - 1);
      HaltedNext(env, states[at - 1], schedule[at - 1]);
    }
  }

  lemma CancelStays(env: PassEnv, s: PassState, a: Action)
    requires env.Valid() && Enabled(env, s, a)
    ensures s.cancel ==> Next(env, s, a).cancel
  {
  }

  lemma {:induction false} CancelRemains(
    env: PassEnv, stop: bool, cancel: bool, schedule: seq<Action>, states: seq<PassState>, j: nat, k: nat)
    requires env.Valid() && IsRun(env, stop, cancel, schedule, states) && j <= k < |states| && states[j].cancel
    ensures states[k].cancel
  {
    hide Next, Enabled;
    if j < k {
      CancelRemains(env, stop, cancel, schedule, states, j, k - 1);
      CancelStays(env, states[k - 1], schedule[k - 1]);
    }
  }

  /** Stopping and cancelling take effect at once: from then on each worker claims at most one more
      item, counts at most one and announces and records at most one more hit, only workers already past
      the tests do, and however much work is left the pass performs at most 15 * threads + 3 further
      operations. */
  lemma HaltIsPrompt(
    env: PassEnv, cancel: bool, schedule: seq<Action>, states: seq<PassState>, halt: nat, at: nat)
    requires env.Valid() && IsRun(env, false, cancel, schedule, states) && halt <= at < |states|
    requires Halted(states[halt])
    ensures var s, t := states[halt], states[at];
            && t.next - s.next <= ClaimsLeft(s) <= |s.workers|
            && |t.hits| - |s.hits| <= HitsLeft(s) <= |s.workers|
            && PortHits(t.events) - PortHits(s.events) <= AnnouncementsLeft(s) <= |s.workers|
            && t.scanned - s.scanned <= CountsLeft(s) <= |s.workers|
            && at - halt <= 15 * env.Threads() + 3
            && |s.workers| <= env.Threads()
  {
    hide Next, Enabled, ClaimsLeft, HitsLeft, AnnouncementsLeft, CountsLeft, StepsLeft, PortHits, Halted;
    CounterIsBounded(env, cancel, schedule, states, halt);
    SinceHalt(env, false, cancel, schedule, states, halt, at);
    hide IsRun;
    LittleIsLeft(env, states[halt]);
  }

  lemma LittleIsLeft(env: PassEnv, s: PassState)
    requires |s.workers| <= env.Threads()
    ensures ClaimsLeft(s) <= |s.workers| && HitsLeft(s) <= |s.workers|
    ensures AnnouncementsLeft(s) <= |s.workers| && CountsLeft(s) <= |s.workers|
    ensures StepsLeft(env, s) <= 15 * env.Threads() + 3
  {
    hide Sum, PassEnv.Threads;
    SumBounded(MayClaim(s.cancel), s.workers, 1);
    SumBounded(MayRecord(s.cancel), s.workers, 1);
    SumBounded(MayAnnounce(s.cancel), s.workers, 1);
    SumBounded(MayCount(s.cancel), s.workers, 1);
    SumBounded(Remaining(s.cancel), s.workers, 15);
  }

  // ---- Probes ----

  /** A worker past both tests in front of the probe may begin one more. */
  function MayProbe(cancel: bool): Pc -> nat {
    (pc: Pc) => if pc.Probe? || (pc.PreCancel? && !cancel) then 1 else 0
  }

  /** How many of the actions between two moments are probes. */
  function Probes(schedule: seq<Action>, states: seq<PassState>, halt: nat, at: nat): nat
    requires at <= |schedule| && at <= |states|
    decreases at
  {
    if at <= halt then 0
    else
      var s, a := states[at - 1], schedule[at - 1];
      Probes(schedule, states, halt, at - 1)
      + if a.Step? && a.worker < |s.workers| && s.workers[a.worker].Probe? then 1 else 0
  }

  predicate ProbesLess(s: PassState, pc: Pc, e: Effect) {
    match e
    case ClaimNext => pc.Claim?
    case CountOne => pc.CountScanned?
    case _ => MayProbe(s.cancel)(e.pc) + (if pc.Probe? then 1 else 0) <= MayProbe(s.cancel)(pc)
  }

  lemma ReactProbesLess(env: PassEnv, s: PassState, pc: Pc)
    requires env.Valid() && InRange(env, pc) && Halted(s)
    ensures pc.Exited? || ProbesLess(s, pc, React(env, s, pc))
  {
    hide PassEnv.HitAt, PassEnv.Kind;
  }

  lemma ApplyProbesLess(env: PassEnv, s: PassState, w: nat, e: Effect)
    requires env.Valid() && w < |s.workers| && ProbesLess(s, s.workers[w], e) && (e.Dispose? ==> e.idx < |env.work|)
    ensures var t := Apply(env, s, w, e);
            && t.cancel == s.cancel && t.workers == s.workers[w := t.workers[w]]
            && MayProbe(s.cancel)(t.workers[w]) + (if s.workers[w].Probe? then 1 else 0) <= MayProbe(s.cancel)(s.workers[w])
  {
    hide PassEnv.HitAt;
  }

  lemma ProbesNext(env: PassEnv, s: PassState, a: Action)
    requires env.Valid() && Enabled(env, s, a) && Halted(s)
    ensures var t := Next(env, s, a);
            && Halted(t)
            && Sum(MayProbe(t.cancel), t.workers) + (if a.Step? && s.workers[a.worker].Probe? then 1 else 0)
               <= Sum(MayProbe(s.cancel), s.workers)
  {
    hide Sum;
    var t := Next(env, s, a);
    HaltedNext(env, s, a);
    match a
    case Step(w) =>
      var e := React(env, s, s.workers[w]);
      ReactProbesLess(env, s, s.workers[w]);
      ReactCareful(env, s, s.workers[w]);
      hide React;
      ApplyProbesLess(env, s, w, e);
      SumUpdate(MayProbe(s.cancel), s.workers, w, t.workers[w]);
    case Cancel =>
      SumMonotone(MayProbe(true), MayProbe(false), s.workers);
    case Spawn =>
      SumAppend(MayProbe(s.cancel), s.workers, LoadStop);
    case _ =>
  }

  /** From a stop or cancel on only workers already past the tests in front of the probe begin one, each
      one at most. */
  lemma {:induction false} FewProbesAfterHalt(
    env: PassEnv, stop: bool, cancel: bool, schedule: seq<Action>, states: seq<PassState>, halt: nat, at: nat)
    requires env.Valid() && IsRun(env, stop, cancel, schedule, states) && halt <= at < |states|
    requires Halted(states[halt])
    ensures Halted(states[at])
    ensures Probes(schedule, states, halt, at) + Sum(MayProbe(states[at].cancel), states[at].workers)
         <= Sum(MayProbe(states[halt].cancel), states[halt].workers) <= |states[halt].workers|
  {
    hide Next, Sum, Halted;
    SumBounded(MayProbe(states[halt].cancel), states[halt].workers, 1);
    if halt < at {
      FewProbesAfterHalt(env, stop, cancel, schedule, states, halt, at - 1);
      ProbesNext(env, states[at - 1], schedule[at - 1]);
    }
  }
}
