/** The scanner as it is written: shared fields, a worker loop body per operation, the spawning
    and joining of a pass, and `run` with its two passes and final sort. Which thread acts next,
    when spawning fails and when the caller cancels is left to nondeterministic choice. */
module Scanner {
  import opened Net
  import opened Sequences
  import opened ScanMachine
  import opened ScanInvariants
  import opened ScanStop
  import opened ScanEvents
  import opened ScanRuns
  import opened ScanTermination
  import opened ScanHalt
  import opened HitOrder
  import opened TwoPassScan
  import opened ScanVerdict

  class Scanner {
    const cfg: ScanCfg
    const net: Network

    var next: nat
    var scanned: nat
    var hits: seq<Hit>
    var pending: seq<Work>
    var localStop: bool
    var cancel: bool
    var log: seq<ScanEvent>
    var workers: seq<Pc>
    var spawner: Spawner

    ghost var filings: seq<Filing>
    ghost var places: map<nat, Place>
    ghost var logBase: nat

    constructor (cfg: ScanCfg, net: Network, cancelled: bool)
      ensures this.cfg == cfg && this.net == net && cancel == cancelled && log == []
    {
      this.cfg, this.net, this.cancel, this.log := cfg, net, cancelled, [];
      next, scanned, hits, pending, localStop := 0, 0, [], [], false;
      workers, spawner, filings, places, logBase := [], Spawning, [], map[], 0;
    }

    /** The current pass as a state of the transition system; its log begins at `logBase`. */
    ghost function View(): PassState
      reads this
      requires logBase <= |log|
    {
      PassState(next, scanned, hits, pending, localStop, cancel, log[logBase..], workers, spawner, filings, places)
    }

    method Emit(event: ScanEvent)
      requires logBase <= |log|
      modifies this`log
      ensures log == old(log) + [event] && log[logBase..] == old(log)[logBase..] + [event]
    {
      log := log + [event];
    }

    /** Worker `w` lets go of item `i`. */
    ghost method Settle(w: nat, i: nat, fate: Fate)
      modifies this`filings, this`places
      ensures filings == old(filings) + [Filing(i, fate, w, localStop)]
      ensures places == old(places)[i := Filed(|old(filings)|)]
    {
      places := places[i := Filed(|filings|)];
      filings := filings + [Filing(i, fate, w, localStop)];
    }

    /** The loop head of worker `w`: the stop test and the claim. */
    method Head(env: PassEnv, w: nat)
      requires env.Valid() && logBase <= |log| && Enabled(env, View(), Step(w))
      requires workers[w].LoadStop? || workers[w].LoadCancel? || workers[w].Claim?
      modifies this`next, this`workers, this`places
      ensures View() == Next(env, old(View()), Step(w))
    {
      var pc: Pc;
      match workers[w] {
        case LoadStop =>
          pc := if localStop then Exited else LoadCancel;
        case LoadCancel =>
          pc := if cancel then Exited else Claim;
        case Claim =>
          var idx := next;
          next := next + 1;
          if idx >= |env.work| {
            pc := Exited;
          } else {
            places := places[idx := Flight(w)];
            pc := Connect(idx);
          }
      }
      workers := workers[w := pc];
    }

    /** The connect attempt and what follows a refusal or a timeout. */
    method Attempt(env: PassEnv, w: nat)
      requires env.Valid() && logBase <= |log| && Enabled(env, View(), Step(w))
      requires workers[w].Connect? || workers[w].PushPending?
      modifies this`pending, this`workers, this`filings, this`places
      ensures View() == Next(env, old(View()), Step(w))
    {
      var i := workers[w].idx;
      var pc := CountScanned;
      if workers[w].PushPending? {
        pending := pending + [env.work[i]];
        Settle(w, i, Pending);
      } else {
        match env.Outcome(i) {
          case Accepted =>
            pc := PreStop(i);
          case TimedOut =>
            if env.pass == 1 {
              pc := PushPending(i);
            } else {
              Settle(w, i, Dropped);
            }
          case Refused =>
            Settle(w, i, Closed);
        }
      }
      workers := workers[w := pc];
      assert hits == hits + [] && old(pending) == old(pending) + [];
    }

    /** The two stop tests around the probe. */
    method Gate(env: PassEnv, w: nat)
      requires env.Valid() && logBase <= |log| && Enabled(env, View(), Step(w))
      requires workers[w].PreStop? || workers[w].PreCancel? || workers[w].Probe? || workers[w].PostStop?
               || workers[w].PostCancel?
      modifies this`workers, this`filings, this`places
      ensures View() == Next(env, old(View()), Step(w))
    {
      var i := workers[w].idx;
      var stop, pc := false, CountScanned;
      match workers[w] {
        case PreStop(_) => stop, pc := localStop, PreCancel(i);
        case PreCancel(_) => stop, pc := cancel, Probe(i);
        case Probe(_) => pc := PostStop(i);
        case PostStop(_) => stop, pc := localStop, PostCancel(i);
        case PostCancel(_) => stop, pc := cancel, EmitHit(i);
      }
      if stop {
        Settle(w, i, Suppressed);
        pc := CountScanned;
      }
      workers := workers[w := pc];
      assert hits == hits + [] && pending == pending + [];
    }

    /** Announce a hit, record it, and raise the stop flag if it ends the scan. */
    method Record(env: PassEnv, w: nat)
      requires env.Valid() && logBase <= |log| && Enabled(env, View(), Step(w))
      requires workers[w].EmitHit? || workers[w].PushHit? || workers[w].RaiseStop?
      modifies this`hits, this`localStop, this`log, this`workers, this`filings, this`places
      ensures |old(log)| <= |log| && log[..|old(log)|] == old(log)
      ensures View() == Next(env, old(View()), Step(w))
    {
      hide PassEnv.HitAt, PassEnv.Kind, IsAdb;
      var pc := CountScanned;
      match workers[w] {
        case EmitHit(i) =>
          Emit(PortHit(env.HitAt(i)));
          pc := PushHit(i);
        case PushHit(i) =>
          hits := hits + [env.HitAt(i)];
          Settle(w, i, Recorded);
          if env.cfg.stopOnFirst && IsAdb(env.Kind(i)) {
            pc := RaiseStop(i);
          }
        case RaiseStop(_) =>
          localStop := true;
      }
      workers := workers[w := pc];
      assert pending == pending + [];
    }

    /** Count the item and report every 5000th. */
    method Tail(env: PassEnv, w: nat)
      requires env.Valid() && logBase <= |log| && Enabled(env, View(), Step(w))
      requires workers[w].CountScanned? || workers[w].EmitProgress?
      modifies this`scanned, this`log, this`workers
      ensures |old(log)| <= |log| && log[..|old(log)|] == old(log)
      ensures View() == Next(env, old(View()), Step(w))
    {
      var pc := LoadStop;
      match workers[w] {
        case CountScanned =>
          scanned := scanned + 1;
          if scanned % PROGRESS_EVERY == 0 {
            pc := EmitProgress(scanned);
          }
        case EmitProgress(done) =>
          Emit(Progress(env.pass, done, |env.work|));
      }
      workers := workers[w := pc];
    }

    /** One operation of worker `w`. */
    method Advance(env: PassEnv, w: nat)
      requires env.Valid() && logBase <= |log| && Enabled(env, View(), Step(w))
      modifies this`next, this`scanned, this`hits, this`pending, this`localStop, this`log, this`workers,
               this`filings, this`places
      ensures |old(log)| <= |log| && log[..|old(log)|] == old(log)
      ensures View() == Next(env, old(View()), Step(w))
    {
      match workers[w] {
        case LoadStop => Head(env, w);
        case LoadCancel => Head(env, w);
        case Claim => Head(env, w);
        case Connect(_) => Attempt(env, w);
        case PushPending(_) => Attempt(env, w);
        case EmitHit(_) => Record(env, w);
        case PushHit(_) => Record(env, w);
        case RaiseStop(_) => Record(env, w);
        case CountScanned => Tail(env, w);
        case EmitProgress(_) => Tail(env, w);
        case PreStop(_) => Gate(env, w);
        case PreCancel(_) => Gate(env, w);
        case Probe(_) => Gate(env, w);
        case PostStop(_) => Gate(env, w);
        case PostCancel(_) => Gate(env, w);
      }
    }

    /** Whoever can act next acts: the spawning thread, a worker, or the caller cancelling. */
    method Act(env: PassEnv) returns (ghost action: Action)
      requires env.Valid() && logBase <= |log| && Inv(env, View()) && !Joined(View())
      modifies this`next, this`scanned, this`hits, this`pending, this`localStop, this`cancel, this`log,
               this`workers, this`spawner, this`filings, this`places
      ensures |old(log)| <= |log| && log[..|old(log)|] == old(log)
      ensures Enabled(env, old(View()), action) && View() == Next(env, old(View()), action)
    {
      assert forall w :: 0 <= w < |workers| ==> InRange(env, View().workers[w]);
      if {
        case spawner.Spawning? && |workers| < env.Threads() =>
          action := Spawn;
          workers := workers + [LoadStop];
        case spawner.Spawning? =>
          action := StopSpawning;
          spawner := Announcing;
        case spawner.Announcing? =>
          action := Announce;
          if |workers| != env.cfg.threads {
            Emit(ThreadsSpawned(env.pass, env.cfg.threads, |workers|));
          }
          spawner := Joining;
        case exists w :: 0 <= w < |workers| && !workers[w].Exited? =>
          var w :| 0 <= w < |workers| && !workers[w].Exited?;
          action := Step(w);
          Advance(env, w);
        case !cancel =>
          action := Cancel;
          cancel := true;
      }
    }

    /** One turn of the pass, with what it keeps and what it lowers. */
    method Turn(env: PassEnv) returns (ghost action: Action)
      requires env.Valid() && logBase <= |log| && Good(env, View()) && !Joined(View())
      modifies this`next, this`scanned, this`hits, this`pending, this`localStop, this`cancel, this`log,
               this`workers, this`spawner, this`filings, this`places
      ensures |old(log)| <= |log| && log[..|old(log)|] == old(log)
      ensures Enabled(env, old(View()), action) && View() == Next(env, old(View()), action)
      ensures Good(env, View()) && Measure(env, View()) < Measure(env, old(View()))
      ensures old(cancel) ==> cancel
    {
      ghost var before := View();
      action := Act(env);
      GoodAct(env, before, action, View());
    }

    /** Fresh counters and no workers; hits, flags and log carry over. */
    method Reset(env: PassEnv)
      requires env.Valid() && env.hits0 == hits && pending == [] && !localStop
      modifies this`next, this`scanned, this`workers, this`spawner, this`filings, this`places, this`logBase
      ensures logBase == |log| && View() == Init(env, false, cancel) && Good(env, View())
    {
      next, scanned, workers, spawner := 0, 0, [], Spawning;
      filings, places, logBase := [], map[], |log|;
      assert View() == Init(env, false, cancel);
      GoodInit(env, cancel);
    }

    /** Spawn the workers of a pass, let everybody act in any order, and join. */
    method Pass(env: PassEnv)
      requires env.Valid() && env.hits0 == hits && pending == [] && !localStop
      modifies this
      ensures logBase == |old(log)| <= |log| && log[..logBase] == old(log)
      ensures Outcome(env, false, old(cancel), View())
      ensures old(cancel) ==> cancel
    {
      hide Inv, StopDiscipline, EventsAgree, Measure;
      Reset(env);
      ReachableStart(env, false, cancel);
      while !(spawner.Joining? && forall w :: 0 <= w < |workers| ==> workers[w].Exited?)
        invariant logBase == |old(log)| <= |log| && log[..logBase] == old(log)
        invariant Good(env, View())
        invariant Reachable(env, false, old(cancel), View())
        invariant old(cancel) ==> cancel
        decreases Measure(env, View())
      {
        ghost var before := View();
        ghost var action := Turn(env);
        ReachableNext(env, false, old(cancel), before, action);
      }
    }

    /** The caller may cancel between any two steps. */
    method Interfere()
      modifies this`cancel
      ensures old(cancel) ==> cancel
    {
      if * {
        cancel := true;
      }
    }

    /** Announce and run the first pass over all the work. */
    method FirstPass() returns (ghost first: PassState)
      requires !cancel
      modifies this
      ensures FirstEnv(cfg, net).Valid() && Outcome(FirstEnv(cfg, net), false, false, first)
      ensures first.cancel ==> cancel
      ensures hits == first.hits && pending == first.pending && localStop == first.localStop
      ensures log == old(log) + [PassStarted(1, |WorkList(cfg)|)] + first.events
    {
      hide Outcome;
      var work := WorkList(cfg);
      hits, pending, localStop, logBase := [], [], false, |log|;
      Emit(PassStarted(1, |work|));
      FirstEnvValid(cfg, net);
      Pass(PassEnv(cfg, net, 1, work, []));
      first := View();
      assert log == log[..logBase] + first.events;
    }

    /** Retry the pending items, or say why not. */
    method SecondPass(ghost first: PassState) returns (ghost second: Option<PassState>, ghost cancelSeen: bool)
      requires FirstEnv(cfg, net).Valid() && Outcome(FirstEnv(cfg, net), false, false, first)
      requires first.cancel ==> cancel
      requires hits == first.hits && pending == first.pending && localStop == first.localStop
      modifies this
      ensures IsScan(cfg, net, Scan(first, cancelSeen, second))
      ensures hits == Scan(first, cancelSeen, second).Last().hits
      ensures log == old(log) + SecondHeader(cfg, first, cancelSeen)
                     + if second.Some? then second.value.events else []
    {
      hide Outcome, WorkList, StopDiscipline, EventsAgree;
      OutcomeIsGood(FirstEnv(cfg, net), false, first);
      SecondEnvValid(cfg, net, first);
      logBase := |log|;
      var retry := pending;
      pending := [];
      var hasAdb := HasAdb(hits);
      Interfere();
      var cancelled := cancel;
      second, cancelSeen := None, cancelled;
      if retry != [] && !cancelled && !(cfg.stopOnFirst && hasAdb) {
        Emit(PassStarted(2, |retry|));
        Pass(PassEnv(cfg, net, 2, retry, hits));
        second := Some(View());
        assert log == log[..logBase] + View().events;
      } else if retry != [] {
        Emit(PassSkipped(2, |retry|, if cancelled then Cancelled else HitFound));
      }
    }

    /** Run a scan to completion. Whatever the schedule, `scan` says how its passes ended. */
    method Run() returns (out: seq<Hit>, ghost scan: Scan)
      modifies this
      ensures WorkList(cfg) == [] || old(cancel) ==> out == [] && log == old(log)
      ensures WorkList(cfg) != [] && !old(cancel) ==>
                && IsScan(cfg, net, scan)
                && log == old(log) + ScanLog(cfg, scan)
                && out == StableSort(HitLeq, scan.Last().hits)
                && Delivers(cfg, net, scan, out)
    {
      out, scan := [], Scan(Init(FirstEnv(cfg, net), false, cancel), cancel, None);
      if WorkList(cfg) == [] || cancel {
        return;
      }
      ghost var first := FirstPass();
      ghost var second, cancelSeen := SecondPass(first);
      scan := Scan(first, cancelSeen, second);
      LogAssembled(cfg, scan, old(log));
      out := StableSort(HitLeq, hits);
      ScansAreSound(cfg, net, scan);
      SortedResult(cfg, net, scan);
    }
  }

  lemma LogAssembled(cfg: ScanCfg, scan: Scan, before: seq<ScanEvent>)
    ensures before + ScanLog(cfg, scan)
         == before + [PassStarted(1, |WorkList(cfg)|)] + scan.first.events
            + SecondHeader(cfg, scan.first, scan.cancelSeen)
            + if scan.second.Some? then scan.second.value.events else []
  {
  }

  /** What the caller of a scan may rely on: the hits come sorted, none is invented, an undisturbed
      scan returns what the sequential scan returns, stopping early never hides whether there is an ADB
      hit, the PortHit events are the returned hits, and stop-on-first bounds the ADB hits by the thread
      count. `ReturnedBefore` and `Tells` say what that means in kinds, texts, ports and answers. */
  ghost predicate Delivers(cfg: ScanCfg, net: Network, scan: Scan, out: seq<Hit>) {
    && Sorted(HitLeq, out)
    && (forall i, j :: 0 <= i < j < |out| ==> ReturnedBefore(out[i], out[j]))
    && Tells(cfg, net, scan, out)
    && multiset(out) <= multiset(SequentialScan(cfg, net))
    && (Undisturbed(scan) ==>
          && multiset(out) == multiset(SequentialScan(cfg, net))
          && Keys(out) == Keys(StableSort(HitLeq, SequentialScan(cfg, net))))
    && (Manned(scan) ==>
          && (HasAdb(out) <==> HasAdb(SequentialScan(cfg, net)))
          && (!(cfg.stopOnFirst && HasAdb(out)) ==> Undisturbed(scan)))
    && (forall h: Hit :: multiset(ScanLog(cfg, scan))[PortHit(h)] == multiset(out)[h])
    && (cfg.stopOnFirst ==> |AdbHits(out)| <= if cfg.threads < 1 then 1 else cfg.threads)
  }

  lemma GoodAct(env: PassEnv, s: PassState, a: Action, t: PassState)
    requires env.Valid() && Good(env, s) && Enabled(env, s, a) && t == Next(env, s, a)
    ensures Good(env, t) && Measure(env, t) < Measure(env, s) && (s.cancel ==> t.cancel)
  {
    hide *;
    GoodNext(env, s, a);
    MeasureDescends(env, s, a);
    CancelStays(env, s, a);
  }

  /** What holds of the sorted result of any scan. */
  lemma SortedResult(cfg: ScanCfg, net: Network, scan: Scan)
    requires SoundScan(cfg, net, scan)
    ensures Delivers(cfg, net, scan, StableSort(HitLeq, scan.Last().hits))
  {
    hide ReturnedBefore, Tells, SequentialScan, Keys, StableSort, HitLeq, SoundScan, HasAdb, Undisturbed, Manned, AdbHits;
    var hits := scan.Last().hits;
    var out := StableSort(HitLeq, hits);
    KeyOrder();
    StableSortSorts(HitLeq, hits);
    SortedIsReturnOrder(out);
    ScanTells(cfg, net, scan, out);
    NoInventedHits(cfg, net, scan);
    LogHits(cfg, net, scan);
    SubsetHasAdb(out, hits);
    SubsetHasAdb(hits, out);
    if Undisturbed(scan) {
      UndisturbedHits(cfg, net, scan);
      SortedKeysAgree(hits, SequentialScan(cfg, net));
    }
    if Manned(scan) {
      StoppingCostsNoVerdict(cfg, net, scan);
    }
    if cfg.stopOnFirst {
      FewAdbHits(cfg, net, scan);
      SameAdbCount(out, hits);
    }
  }

  lemma SameAdbCount(a: seq<Hit>, b: seq<Hit>)
    requires multiset(a) == multiset(b)
    ensures |AdbHits(a)| == |AdbHits(b)|
  {
    CollectPermutation(AdbOnly, a, b);
    SameSize(AdbHits(a), AdbHits(b));
  }
}
