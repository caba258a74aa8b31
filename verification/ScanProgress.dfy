/** The progress reports of a whole scan. The second pass counts from zero again. */
module ScanProgress {
  import opened Net
  import opened Sequences
  import opened ScanMachine
  import opened ScanInvariants
  import opened ScanEvents
  import opened ScanRuns
  import opened ScanStop
  import opened ScanTermination
  import opened TwoPassScan

  /** A later progress event counts less than an earlier one. */
  ghost predicate FallsBack(log: seq<ScanEvent>) {
    exists i, j :: 0 <= i < j < |log| && log[i].Progress? && log[j].Progress? && log[j].done < log[i].done
  }

  // ---- Some run of every pass ----

  /** Left to itself, a pass with a worker comes to its join. */
  lemma {:induction false} RunsToJoin(env: PassEnv, s: PassState) returns (t: PassState)
    requires env.Valid() && Reachable(env, false, false, s) && !s.cancel && s.workers != []
    ensures Outcome(env, false, false, t) && !t.cancel && t.workers != []
    decreases Measure(env, s)
  {
    hide Reachable, Measure, Inv, StopDiscipline, EventsAgree, React;
    t := s;
    if !Joined(s) {
      ReachableIsGood(env, false, s);
      NeverStuck(env, s);
      var a :| Enabled(env, s, a) && !a.Cancel?;
      ReachableNext(env, false, false, s, a);
      MeasureDescends(env, s, a);
      t := RunsToJoin(env, Next(env, s, a));
    }
  }

  lemma SomeRun(env: PassEnv) returns (s: PassState)
    requires env.Valid()
    ensures Outcome(env, false, false, s) && !s.cancel && s.workers != []
  {
    hide Reachable, Outcome;
    s := Init(env, false, false);
    ReachableStart(env, false, false);
    ReachableNext(env, false, false, s, Spawn);
    s := RunsToJoin(env, Next(env, s, Spawn));
  }

  lemma {:induction false} NoHitsFiled(env: PassEnv, filings: seq<Filing>, stopped: bool)
    requires env.Valid() && Faithful(env, filings, stopped)
    requires forall i :: 0 <= i < |env.work| ==> !env.Outcome(i).Accepted?
    ensures HitsOf(env, filings) == []
  {
    if filings != [] {
      var n := |filings| - 1;
      assert filings[n] in filings;
      NoHitsFiled(env, filings[..n], stopped);
    }
  }

  /** Where nothing accepts, some run of a pass goes through all its items and finds nothing. */
  lemma SomeQuietRun(env: PassEnv) returns (s: PassState)
    requires env.Valid() && env.hits0 == [] && forall i :: 0 <= i < |env.work| ==> !env.Outcome(i).Accepted?
    ensures Outcome(env, false, false, s) && RanFreely(s) && s.hits == []
  {
    hide Reachable, StopDiscipline, EventsAgree, Ownership, Counters, PassEnv.Outcome;
    s := SomeRun(env);
    OutcomeIsGood(env, false, s);
    NoHitsFiled(env, s.filings, s.localStop || s.cancel);
  }

  // ---- A scan whose count falls back ----

  /** Everything times out in the first pass and refuses in the second. */
  function SlowNetwork(): Network {
    Network((pass, _) => if pass == 1 then TimedOut else Refused, (_, _) => AdbKind.Open)
  }

  lemma {:induction false} AllTimeOut(work: seq<Work>)
    ensures Collect(TimedOutItem(SlowNetwork(), 1), work) == work
  {
    if work != [] {
      var n := |work| - 1;
      AllTimeOut(work[..n]);
      assert work == work[..n] + [work[n]];
    }
  }

  /** Through the slow network both passes count every item. */
  lemma SlowScan(cfg: ScanCfg) returns (scan: Scan)
    requires WorkList(cfg) != []
    ensures IsScan(cfg, SlowNetwork(), scan) && scan.second.Some?
    ensures scan.first.scanned == scan.second.value.scanned == |scan.first.pending| == |WorkList(cfg)|
  {
    hide Outcome, Good, WorkList, SlowNetwork;
    var net := SlowNetwork();
    var env := FirstEnv(cfg, net);
    FirstEnvValid(cfg, net);
    SlowOutcomes(env);
    var first := SomeQuietRun(env);
    OutcomeIsGood(env, false, first);
    FreeRunFilesEverything(env, first);
    FreeRunIsASweep(env, first);
    AllTimeOut(env.work);
    SameSize(first.pending, env.work);
    GoodIsInv(env, first);
    SecondEnvValid(cfg, net, first);
    var env2 := SecondEnv(cfg, net, first);
    SlowOutcomes(env2);
    var second := SomeQuietRun(env2);
    OutcomeIsGood(env2, false, second);
    FreeRunFilesEverything(env2, second);
    scan := Scan(first, false, Some(second));
  }

  lemma SlowOutcomes(env: PassEnv)
    requires env.net == SlowNetwork()
    ensures forall i :: 0 <= i < |env.work| ==> !env.Outcome(i).Accepted?
  {
  }

  lemma GoodIsInv(env: PassEnv, s: PassState)
    requires env.Valid() && Good(env, s)
    ensures Inv(env, s)
  {
  }

  lemma ReportedAtJoin(env: PassEnv, s: PassState, d: nat)
    requires env.Valid() && Good(env, s) && Joined(s) && Milestone(d, s.scanned)
    ensures Progress(env.pass, d, |env.work|) in s.events
  {
    JoinedEvents(env, s);
    assert multiset(s.events)[Progress(env.pass, d, |env.work|)] == 1;
  }

  /** Its first pass reports 10000, its second pass then 5000. */
  lemma SlowScanFallsBack(cfg: ScanCfg) returns (scan: Scan)
    requires |WorkList(cfg)| >= 2 * PROGRESS_EVERY
    ensures IsScan(cfg, SlowNetwork(), scan) && FallsBack(ScanLog(cfg, scan))
  {
    hide WorkList, Good, Joined, SlowNetwork, IsScan;
    scan := SlowScan(cfg);
    ScansAreSound(cfg, SlowNetwork(), scan);
    var high := Progress(1, 2 * PROGRESS_EVERY, |WorkList(cfg)|);
    var low := Progress(2, PROGRESS_EVERY, |scan.first.pending|);
    ReportedAtJoin(FirstEnv(cfg, SlowNetwork()), scan.first, 2 * PROGRESS_EVERY);
    ReportedAtJoin(SecondEnv(cfg, SlowNetwork(), scan.first), scan.second.value, PROGRESS_EVERY);
    var i :| 0 <= i < |scan.first.events| && scan.first.events[i] == high;
    var j :| 0 <= j < |scan.second.value.events| && scan.second.value.events[j] == low;
    LogParts(cfg, scan, i, j);
  }

  lemma LogParts(cfg: ScanCfg, scan: Scan, i: nat, j: nat)
    requires scan.second.Some? && i < |scan.first.events| && j < |scan.second.value.events|
    ensures var log := ScanLog(cfg, scan);
            var later := |log| - |scan.second.value.events| + j;
            1 + i < later < |log| && log[1 + i] == scan.first.events[i] && log[later] == scan.second.value.events[j]
  {
    hide SecondHeader;
  }

  // ---- Short scans ----

  /** With fewer than 10000 items only 5000 is ever reported, in either pass. */
  lemma ShortScanReports(cfg: ScanCfg, net: Network, scan: Scan, e: ScanEvent)
    requires SoundScan(cfg, net, scan) && |WorkList(cfg)| < 2 * PROGRESS_EVERY
    requires e in ScanLog(cfg, scan) && e.Progress?
    ensures e.done == 5_000
  {
    hide WorkList, ScanLog, Good;
    ScanLogProgress(cfg, net, scan, e.pass, e.done, e.total);
    HeaderCountsTimeouts(cfg, net, scan);
    if scan.second.Some? {
      var env2 := SecondEnv(cfg, net, scan.first);
      JoinedEvents(env2, scan.second.value);
      GoodIsInv(env2, scan.second.value);
      FiledAtMost(env2, scan.second.value);
    }
    assert e in multiset(ScanLog(cfg, scan));
  }

  /** For a given configuration: the progress of some scan falls back exactly if it has 10000 items,
      however many threads it has. */
  lemma ScanProgressFallsBack(cfg: ScanCfg)
    ensures (exists net, scan :: IsScan(cfg, net, scan) && FallsBack(ScanLog(cfg, scan)))
        <==> |cfg.targets| * |cfg.ports| >= 10_000
  {
    hide WorkList, IsScan, ScanLog;
    assert |WorkList(cfg)| == |cfg.targets| * |cfg.ports| by { WorkListSize(cfg); }
    if |WorkList(cfg)| >= 2 * PROGRESS_EVERY {
      var scan := SlowScanFallsBack(cfg);
    }
    forall net, scan | IsScan(cfg, net, scan) && FallsBack(ScanLog(cfg, scan))
      ensures |WorkList(cfg)| >= 2 * PROGRESS_EVERY
    {
      ScansAreSound(cfg, net, scan);
      var log := ScanLog(cfg, scan);
      var i, j :| 0 <= i < j < |log| && log[i].Progress? && log[j].Progress? && log[j].done < log[i].done;
      if |WorkList(cfg)| < 2 * PROGRESS_EVERY {
        ShortScanReports(cfg, net, scan, log[i]);
        ShortScanReports(cfg, net, scan, log[j]);
        assert false;
      }
    }
  }
}
