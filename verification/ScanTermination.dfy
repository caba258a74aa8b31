/** Every schedule ends: each action lowers a measure, and until the join something can act. */
module ScanTermination {
  import opened Sequences
  import opened ScanMachine
  import opened ScanInvariants

  const CLAIM_WEIGHT: nat := 15
  const SPAWN_WEIGHT: nat := 4

  /** Operations a worker can still perform before it must claim again. */
  function Rank(pc: Pc): nat {
    match pc
    case Exited => 0
    case Claim => 1
    case LoadCancel => 2
    case LoadStop => 3
    case EmitProgress(_) => 4
    case CountScanned => 5
    case RaiseStop(_) => 6
    case PushHit(_) => 7
    case EmitHit(_) => 8
    case PostCancel(_) => 9
    case PostStop(_) => 10
    case Probe(_) => 11
    case PreCancel(_) => 12
    case PreStop(_) => 13
    case PushPending(_) => 13
    case Connect(_) => 14
  }

  function TotalRank(workers: seq<Pc>): nat {
    Sum(Rank, workers)
  }

  function Unspawned(env: PassEnv, s: PassState): nat {
    if |s.workers| < env.Threads() then env.Threads() - |s.workers| else 0
  }

  function SpawnerRank(env: PassEnv, s: PassState): nat {
    match s.spawner
    case Spawning => 2 + SPAWN_WEIGHT * Unspawned(env, s)
    case Announcing => 1
    case Joining => 0
  }

  function Measure(env: PassEnv, s: PassState): nat {
    CLAIM_WEIGHT * (|env.work| - Claimed(env, s)) + TotalRank(s.workers) + SpawnerRank(env, s)
    + if s.cancel then 0 else 1
  }

  predicate Descends(env: PassEnv, pc: Pc, e: Effect) {
    match e
    case Goto(to) => Rank(to) < Rank(pc)
    case Log(_, to) => Rank(to) < Rank(pc)
    case Dispose(i, _, to) => Rank(to) < Rank(pc) && i < |env.work|
    case RaiseFlag(to) => Rank(to) < Rank(pc)
    case ClaimNext => pc.Claim?
    case CountOne => pc.CountScanned?
  }

  lemma ReactDescends(env: PassEnv, s: PassState, pc: Pc)
    requires env.Valid() && InRange(env, pc) && !pc.Exited?
    ensures Descends(env, pc, React(env, s, pc))
  {
  }

  lemma StepDescends(env: PassEnv, s: PassState, w: nat, e: Effect)
    requires env.Valid() && w < |s.workers| && Descends(env, s.workers[w], e)
    ensures Measure(env, Apply(env, s, w, e)) < Measure(env, s)
  {
    hide Sum, PassEnv.HitAt, PassEnv.Valid;
    var t := Apply(env, s, w, e);
    var pc := t.workers[w];
    assert t.workers == s.workers[w := pc];
    SumUpdate(Rank, s.workers, w, pc);
    assert SpawnerRank(env, t) == SpawnerRank(env, s) && t.cancel == s.cancel;
    hide SpawnerRank, PassEnv.Threads;
  }

  lemma SpawnDescends(env: PassEnv, s: PassState)
    requires env.Valid() && Enabled(env, s, Spawn)
    ensures Measure(env, Next(env, s, Spawn)) < Measure(env, s)
  {
    assert (s.workers + [LoadStop])[..|s.workers|] == s.workers;
  }

  /** Every action of every schedule lowers the measure. */
  lemma MeasureDescends(env: PassEnv, s: PassState, a: Action)
    requires env.Valid() && Enabled(env, s, a)
    ensures Measure(env, Next(env, s, a)) < Measure(env, s)
  {
    hide Sum, React, Apply;
    if a.Step? {
      hide Measure;
      ReactDescends(env, s, s.workers[a.worker]);
      StepDescends(env, s, a.worker, React(env, s, s.workers[a.worker]));
    } else if a.Spawn? {
      SpawnDescends(env, s);
    }
  }

  /** No deadlock: until the pass is joined, some thread of the scanner can act. */
  lemma NeverStuck(env: PassEnv, s: PassState)
    requires env.Valid() && Inv(env, s) && !Joined(s)
    ensures exists a :: Enabled(env, s, a) && !a.Cancel?
  {
    if s.spawner.Spawning? {
      assert Enabled(env, s, StopSpawning);
    } else if s.spawner.Announcing? {
      assert Enabled(env, s, Announce);
    } else {
      var w :| 0 <= w < |s.workers| && !s.workers[w].Exited?;
      assert Enabled(env, s, Step(w));
    }
  }

  /** A schedule is never longer than the measure of the initial state. */
  lemma {:induction false} SchedulesAreBounded(
    env: PassEnv, stop: bool, cancel: bool, schedule: seq<Action>, states: seq<PassState>)
    requires env.Valid() && IsRun(env, stop, cancel, schedule, states)
    ensures |schedule| + Measure(env, states[|schedule|]) <= Measure(env, Init(env, stop, cancel))
    ensures Measure(env, Init(env, stop, cancel)) <= CLAIM_WEIGHT * |env.work| + SPAWN_WEIGHT * env.Threads() + 3
  {
    if schedule != [] {
      var n := |schedule| - 1;
      assert IsRun(env, stop, cancel, schedule[..n], states[..n + 1]);
      SchedulesAreBounded(env, stop, cancel, schedule[..n], states[..n + 1]);
      MeasureDescends(env, states[n], schedule[n]);
    }
  }
}
