/** What pressing stop does to the scan behind the window. */
module UiStop {
  import opened Sequences
  import opened TwoPassScan
  import opened ScanHalt
  import opened UiProtocol
  import opened UiScan
  import opened Scan = ScanMachine

  ghost function EnvOf(cfg: ScanCfg, net: Network, scan: TwoPassScan.Scan, pass: nat): PassEnv {
    if pass == 1 then FirstEnv(cfg, net) else SecondEnv(cfg, net, scan.first)
  }

  /** Some schedule takes pass 1 or 2 of the scan through `s`, where the token is set, to its end. */
  ghost predicate CancelledAt(cfg: ScanCfg, net: Network, scan: TwoPassScan.Scan, pass: nat, s: PassState) {
    var env := EnvOf(cfg, net, scan, pass);
    && s.cancel && env.Valid() && (pass == 1 || (pass == 2 && scan.second.Some?))
    && exists schedule, states, h ::
         && IsRun(env, pass == 2 && scan.first.localStop, pass == 2 && scan.cancelSeen, schedule, states)
         && states[|schedule|] == (if pass == 1 then scan.first else scan.second.value)
         && 0 <= h < |states| && states[h] == s
  }

  /** What the scan has emitted by then. */
  function EmittedAt(cfg: ScanCfg, scan: TwoPassScan.Scan, pass: nat, s: PassState): seq<ScanEvent> {
    [PassStarted(1, |WorkList(cfg)|)]
    + if pass == 1 then s.events
      else scan.first.events + SecondHeader(cfg, scan.first, scan.cancelSeen) + s.events
  }

  function MaxThreads(cfg: ScanCfg): nat {
    if cfg.threads < 1 then 1 else cfg.threads
  }

  lemma PortHitsConcat(a: seq<ScanEvent>, b: seq<ScanEvent>)
    ensures PortHits(a + b) == PortHits(a) + PortHits(b)
  {
    SumConcat(OfHit, a, b);
  }

  lemma PassWindsDown(
    env: PassEnv, cancel: bool, schedule: seq<Action>, states: seq<PassState>, h: nat)
    requires env.Valid() && IsRun(env, false, cancel, schedule, states) && h < |states| && states[h].cancel
    ensures states[|schedule|].cancel
    ensures PortHits(states[|schedule|].events) <= PortHits(states[h].events) + MaxThreads(env.cfg)
  {
    hide Scan.Next, Enabled, PortHits;
    CancelRemains(env, false, cancel, schedule, states, h, |schedule|);
    HaltIsPrompt(env, cancel, schedule, states, h, |schedule|);
  }

  function FinalState(scan: TwoPassScan.Scan, pass: nat): PassState
    requires pass == 1 || scan.second.Some?
  {
    if pass == 1 then scan.first else scan.second.value
  }

  lemma CancelledPass(cfg: ScanCfg, net: Network, scan: TwoPassScan.Scan, pass: nat, s: PassState)
    requires IsScan(cfg, net, scan) && CancelledAt(cfg, net, scan, pass, s)
    ensures FinalState(scan, pass).cancel
    ensures PortHits(FinalState(scan, pass).events) <= PortHits(s.events) + MaxThreads(cfg)
  {
    hide PortHits, WorkList, Outcome, Scan.Next, Enabled;
    var env := EnvOf(cfg, net, scan, pass);
    if pass == 2 {
      SecondPassStartsUnstopped(cfg, net, scan.first, scan.cancelSeen);
    }
    var schedule, states, h :|
      && IsRun(env, pass == 2 && scan.first.localStop, pass == 2 && scan.cancelSeen, schedule, states)
      && states[|schedule|] == (if pass == 1 then scan.first else scan.second.value)
      && 0 <= h < |states| && states[h] == s;
    PassWindsDown(env, pass == 2 && scan.cancelSeen, schedule, states, h);
  }

  /** A cancelled scan announces at most one more hit per thread, and starts no further pass. */
  lemma CancelledScan(cfg: ScanCfg, net: Network, scan: TwoPassScan.Scan, pass: nat, s: PassState)
    requires IsScan(cfg, net, scan) && CancelledAt(cfg, net, scan, pass, s)
    ensures PortHits(ScanLog(cfg, scan)) <= PortHits(EmittedAt(cfg, scan, pass, s)) + MaxThreads(cfg)
    ensures pass == 1 ==> scan.second.None?
  {
    hide PortHits, WorkList, IsRun, Outcome, ScanLog;
    CancelledPass(cfg, net, scan, pass, s);
    LogByParts(cfg, scan);
    var head := [PassStarted(1, |WorkList(cfg)|)];
    if pass == 1 {
      PortHitsConcat(head, s.events);
    } else {
      var middle := SecondHeader(cfg, scan.first, scan.cancelSeen);
      PortHitsConcat(head, scan.first.events + middle + s.events);
      PortHitsConcat(scan.first.events + middle, s.events);
      PortHitsConcat(scan.first.events, middle);
    }
  }

  lemma PortHitsOne(e: ScanEvent)
    ensures PortHits([e]) == OfHit(e) && PortHits([]) == 0
  {
    PortHitsAppend([], e);
    assert [] + [e] == [e];
  }

  lemma HeadersAnnounceNothing(cfg: ScanCfg, scan: TwoPassScan.Scan)
    ensures PortHits([PassStarted(1, |WorkList(cfg)|)]) == 0
    ensures PortHits(SecondHeader(cfg, scan.first, scan.cancelSeen)) == 0
  {
    hide WorkList, PortHits;
    PortHitsOne(PassStarted(1, |WorkList(cfg)|));
    var middle := SecondHeader(cfg, scan.first, scan.cancelSeen);
    if middle != [] {
      PortHitsOne(middle[0]);
    }
  }

  lemma LogByParts(cfg: ScanCfg, scan: TwoPassScan.Scan)
    ensures PortHits(ScanLog(cfg, scan))
         == PortHits(scan.first.events) + if scan.second.Some? then PortHits(scan.second.value.events) else 0
    ensures PortHits([PassStarted(1, |WorkList(cfg)|)]) == 0
    ensures PortHits(SecondHeader(cfg, scan.first, scan.cancelSeen)) == 0
  {
    hide PortHits, WorkList, SecondHeader;
    var head, middle := [PassStarted(1, |WorkList(cfg)|)], SecondHeader(cfg, scan.first, scan.cancelSeen);
    var tail := if scan.second.Some? then scan.second.value.events else [];
    HeadersAnnounceNothing(cfg, scan);
    PortHitsConcat(head + scan.first.events + middle, tail);
    PortHitsConcat(head + scan.first.events, middle);
    PortHitsConcat(head, scan.first.events);
    PortHitsOne(head[0]);
  }

  lemma PortHitsPrefix(a: seq<ScanEvent>, b: seq<ScanEvent>)
    requires a <= b
    ensures PortHits(a) <= PortHits(b)
  {
    PortHitsConcat(a, b[|a|..]);
    assert a + b[|a|..] == b;
  }

  /** Stop is pressed while scan `job` runs, which sets its token when its pass stands at `s`; what the
      window has been sent so far was emitted by then. Then whatever happens, the PortHit events that
      the window will ever handle for the scan are those emitted by then and at most one per thread
      more. */
  lemma PressingStopIsFelt(
    cfg: ScanCfg, net: Network, scan: TwoPassScan.Scan, pass: nat, s: PassState,
    outputs: nat -> Output, events: seq<Event>, states: seq<Ui>, job: nat, k: nat, l: nat)
    requires IsFedHistory(outputs, events, states) && k < |events| && events[k].StopPressed? && l < |states|
    requires states[k].job == ScanRunning(job)
    requires OutputOf(cfg, net, scan, outputs(job)) && CancelledAt(cfg, net, scan, pass, s)
    requires Sent(states[k], job) <= EmittedAt(cfg, scan, pass, s)
    ensures job in states[k + 1].cancelled
    ensures PortHits(Heard(states[k].handled, job)) <= PortHits(EmittedAt(cfg, scan, pass, s))
    ensures PortHits(Heard(states[l].handled, job)) <= PortHits(EmittedAt(cfg, scan, pass, s)) + MaxThreads(cfg)
  {
    hide PortHits, Heard, ScanLog, EmittedAt, CancelledAt, IsScan, Signals;
    EveryUiStateIsSound(events, states, k);
    CancelledScan(cfg, net, scan, pass, s);
    hide HandledInOrder, Fed;
    HandledIsLogged(outputs, events, states, l, job);
    PortHitsPrefix(Heard(states[l].handled, job), outputs(job).log);
    HeardConcat(states[k].handled, states[k].queue, job);
    PortHitsPrefix(Heard(states[k].handled, job), EmittedAt(cfg, scan, pass, s));
  }

  lemma HandledIsLogged(outputs: nat -> Output, events: seq<Event>, states: seq<Ui>, k: nat, job: nat)
    requires IsFedHistory(outputs, events, states) && k < |states|
    ensures Heard(states[k].handled, job) <= outputs(job).log
  {
    hide Heard;
    EveryStateIsFed(outputs, events, states, k);
    HeardConcat(states[k].handled, states[k].queue, job);
    assert Sent(states[k], job) <= outputs(job).log;
  }
}
