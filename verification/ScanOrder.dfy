/** The order of the progress reports of one pass. Each is made once, but a worker that has counted an
    item reports it in a later operation, so another worker's later report can overtake it. */
module ScanOrder {
  import opened Sequences
  import opened ScanMachine
  import opened ScanInvariants
  import opened ScanEvents
  import opened ScanHalt
  import opened ScanRuns
  import opened ScanSpent
  import opened ScanTermination

  function ProgressOf(e: ScanEvent): seq<nat> {
    if e.Progress? then [e.done] else []
  }

  /** The counts reported so far, in order. */
  function Reports(events: seq<ScanEvent>): seq<nat> {
    Collect(ProgressOf, events)
  }

  ghost predicate Ascending(s: seq<nat>) {
    forall i, j :: 0 <= i < j < |s| ==> s[i] < s[j]
  }

  lemma ReportsAppend(events: seq<ScanEvent>, e: ScanEvent)
    ensures Reports(events + [e]) == Reports(events) + ProgressOf(e)
  {
    assert (events + [e])[..|events|] == events;
  }

  // ---- What is reported ----

  lemma {:induction false} ReportCount(env: PassEnv, events: seq<ScanEvent>, d: nat)
    requires forall e :: e in events && e.Progress? ==> e.pass == env.pass && e.total == |env.work|
    ensures multiset(Reports(events))[d] == multiset(events)[Progress(env.pass, d, |env.work|)]
  {
    if events != [] {
      var n := |events| - 1;
      assert events == events[..n] + [events[n]];
      ReportCount(env, events[..n], d);
    }
  }

  /** Only milestones are reported, and none twice. */
  lemma ReportsAreMilestones(env: PassEnv, s: PassState, d: nat)
    requires env.Valid() && Good(env, s)
    ensures d in Reports(s.events) ==> Milestone(d, s.scanned)
    ensures multiset(Reports(s.events))[d] <= 1
  {
    hide Reports;
    ReportCount(env, s.events, d);
    assert MilestoneHeard(env, s, d);
  }

  // ---- Why a report is overtaken ----

  /** A pass in which reports can be overtaken: it has 10000 items, and while its workers go through all
      but the last of them, each item that would stop the scan can be left with a worker of its own,
      with one worker over for the last item and one for the report that waits. With more than 5000
      threads the reporter can be one of those that were left with an item. */
  predicate Overtakable(env: PassEnv) {
    && |env.work| >= 2 * PROGRESS_EVERY
    && StopCount(env, 2 * PROGRESS_EVERY - 1) + (if env.Threads() > PROGRESS_EVERY then 1 else 2) <= env.Threads()
  }

  /** A worker whose report is overdue: 5000 more items are counted. */
  predicate Overdue(s: PassState, w: nat) {
    w < |s.workers| && s.workers[w].EmitProgress? && s.scanned >= s.workers[w].done + PROGRESS_EVERY
  }

  lemma ReportsNext(env: PassEnv, s: PassState, a: Action)
    requires env.Valid() && Enabled(env, s, a)
    ensures var r, t := Reports(s.events), Next(env, s, a);
            || Reports(t.events) == r
            || (a.Step? && s.workers[a.worker].EmitProgress? && Reports(t.events) == r + [s.workers[a.worker].done])
  {
    hide Reports, PassEnv.HitAt;
    match a
    case Step(w) =>
      ReactAudible(env, s, s.workers[w]);
      var e := React(env, s, s.workers[w]);
      if e.Log? {
        ReportsAppend(s.events, e.event);
        assert Reports(s.events) + [] == Reports(s.events);
      }
    case Announce =>
      ReportsAppend(s.events, ThreadsSpawned(env.pass, env.cfg.threads, |s.workers|));
      assert Reports(s.events) + [] == Reports(s.events);
    case _ =>
  }

  /** A report that breaks the order was overdue. */
  lemma DisorderWasOverdue(env: PassEnv, s: PassState, a: Action) returns (w: nat)
    requires env.Valid() && Good(env, s) && Enabled(env, s, a)
    requires Ascending(Reports(s.events)) && !Ascending(Reports(Next(env, s, a).events))
    ensures Overdue(s, w)
  {
    hide Reports, Good, Next;
    ReportsNext(env, s, a);
    w := a.worker;
    LateReport(env, s, w);
  }

  lemma LateReport(env: PassEnv, s: PassState, w: nat)
    requires env.Valid() && Good(env, s) && w < |s.workers| && s.workers[w].EmitProgress?
    requires Ascending(Reports(s.events)) && !Ascending(Reports(s.events) + [s.workers[w].done])
    ensures Overdue(s, w)
  {
    hide Reports, Good;
    var r, d := Reports(s.events), s.workers[w].done;
    var i :| 0 <= i < |r| && r[i] >= d;
    assert r[i] in r;
    ReportsAreMilestones(env, s, r[i]);
    StandingReport(env, s, w);
    MultiplesApart(r[i], d);
  }

  /** Who stands at a report has counted a milestone that is not reported yet. */
  lemma StandingReport(env: PassEnv, s: PassState, w: nat)
    requires env.Valid() && Good(env, s) && w < |s.workers| && s.workers[w].EmitProgress?
    ensures Milestone(s.workers[w].done, s.scanned) && s.workers[w].done !in Reports(s.events)
  {
    hide Reports;
    var d := s.workers[w].done;
    assert MilestoneHeard(env, s, d) && s.workers[w] in multiset(s.workers);
    ReportCount(env, s.events, d);
  }

  lemma MultiplesApart(a: nat, b: nat)
    requires a > b && a % PROGRESS_EVERY == 0 && b % PROGRESS_EVERY == 0
    ensures a >= b + PROGRESS_EVERY
  {
  }

  lemma {:induction false} FirstDisorder(
    env: PassEnv, cancel: bool, schedule: seq<Action>, states: seq<PassState>, k: nat) returns (j: nat, w: nat)
    requires env.Valid() && IsRun(env, false, cancel, schedule, states) && k < |states|
    requires !Ascending(Reports(states[k].events))
    ensures j <= k && Overdue(states[j], w)
  {
    hide Reports, Next, Enabled;
    if k == 0 {
      NothingReported(env, cancel);
      assert false;
    } else if Ascending(Reports(states[k - 1].events)) {
      EveryStateIsGood(env, cancel, schedule, states, k - 1);
      j := k - 1;
      w := DisorderWasOverdue(env, states[k - 1], schedule[k - 1]);
    } else {
      j, w := FirstDisorder(env, cancel, schedule, states, k - 1);
    }
  }

  lemma NothingReported(env: PassEnv, cancel: bool)
    ensures Reports(Init(env, false, cancel).events) == []
  {
  }

  lemma ClaimsOne(env: PassEnv, s: PassState, a: Action)
    requires env.Valid() && Enabled(env, s, a)
    ensures var t := Next(env, s, a);
            t.next == s.next || (t.next == s.next + 1 && a.Step? && s.workers[a.worker].Claim?)
  {
    hide PassEnv.HitAt;
  }

  /** The moment before index `i` is claimed. */
  lemma {:induction false} ClaimMoment(
    env: PassEnv, cancel: bool, schedule: seq<Action>, states: seq<PassState>, k: nat, i: nat)
    returns (j: nat, b: nat)
    requires env.Valid() && IsRun(env, false, cancel, schedule, states) && k < |states| && i < states[k].next
    ensures j < k && states[j].next == i && b < |states[j].workers| && states[j].workers[b].Claim?
  {
    hide Next;
    ClaimsOne(env, states[k - 1], schedule[k - 1]);
    if i < states[k - 1].next {
      j, b := ClaimMoment(env, cancel, schedule, states, k - 1, i);
    } else {
      j, b := k - 1, schedule[k - 1].worker;
    }
  }

  lemma EventsGrow(env: PassEnv, s: PassState, a: Action)
    requires env.Valid() && Enabled(env, s, a)
    ensures multiset(s.events) <= multiset(Next(env, s, a).events)
  {
    hide PassEnv.HitAt;
  }

  lemma {:induction false} EventsStay(
    env: PassEnv, cancel: bool, schedule: seq<Action>, states: seq<PassState>, j: nat, k: nat)
    requires env.Valid() && IsRun(env, false, cancel, schedule, states) && j <= k < |states|
    ensures multiset(states[j].events) <= multiset(states[k].events)
  {
    hide Next, Enabled;
    if j < k {
      EventsStay(env, cancel, schedule, states, j, k - 1);
      EventsGrow(env, states[k - 1], schedule[k - 1]);
    }
  }

  /** A reporter that has used itself up on a stopping item counted after the halt, so few more items
      are counted once it stands at its report. */
  ghost predicate LastWords(env: PassEnv, s: PassState) {
    forall w, k :: 0 <= w < |s.workers| && s.workers[w].EmitProgress?
                   && 0 <= k < |s.filings| && SpentFiling(env, s.filings[k]) && s.filings[k].worker == w ==>
      s.scanned + CountsLeft(s) < s.workers[w].done + env.Threads()
  }

  lemma LastWordsNext(env: PassEnv, s: PassState, a: Action)
    requires env.Valid() && Good(env, s) && Spent(env, s) && LastWords(env, s) && Enabled(env, s, a)
    ensures LastWords(env, Next(env, s, a))
  {
    hide Good, CountsLeft, SpentFiling;
    var t := Next(env, s, a);
    forall w, k | 0 <= w < |t.workers| && t.workers[w].EmitProgress?
                  && 0 <= k < |t.filings| && SpentFiling(env, t.filings[k]) && t.filings[k].worker == w
      ensures t.scanned + CountsLeft(t) < t.workers[w].done + env.Threads()
    {
      Predecessor(env, s, a, w, k);
      HaltedNext(env, s, a);
      CountsAtMost(env, s);
    }
  }

  /** Where a used-up reporter comes from: it stood there, or has just counted. */
  lemma Predecessor(env: PassEnv, s: PassState, a: Action, w: nat, k: nat)
    requires env.Valid() && Good(env, s) && Spent(env, s) && Enabled(env, s, a)
    requires var t := Next(env, s, a);
             && w < |t.workers| && t.workers[w].EmitProgress?
             && k < |t.filings| && SpentFiling(env, t.filings[k]) && t.filings[k].worker == w
    ensures Halted(s) && w < |s.workers| && k < |s.filings| && s.filings[k] == Next(env, s, a).filings[k]
    ensures s.workers[w] == Next(env, s, a).workers[w] || Next(env, s, a).workers[w].done == s.scanned + 1
  {
    hide Good, SpentFiling, PassEnv.HitAt;
    if a.Step? {
      ReactAudible(env, s, s.workers[a.worker]);
      hide React;
    }
  }

  lemma CountsAtMost(env: PassEnv, s: PassState)
    requires env.Valid() && Good(env, s)
    ensures CountsLeft(s) <= |s.workers| <= env.Threads()
  {
    SumBounded(MayCount(s.cancel), s.workers, 1);
  }

  lemma {:induction false} LastWordsInRuns(
    env: PassEnv, cancel: bool, schedule: seq<Action>, states: seq<PassState>, k: nat)
    requires env.Valid() && IsRun(env, false, cancel, schedule, states) && k < |states|
    ensures LastWords(env, states[k])
  {
    hide Next, Enabled, Good, Spent, InFlight;
    if k > 0 {
      LastWordsInRuns(env, cancel, schedule, states, k - 1);
      EveryStateIsGood(env, cancel, schedule, states, k - 1);
      SpentInRuns(env, cancel, schedule, states, k - 1);
      hide LastWords;
      LastWordsNext(env, states[k - 1], schedule[k - 1]);
    }
  }

  /** A worker about to claim owns no stopping item. */
  lemma ClaimerOwnsNone(env: PassEnv, s: PassState, b: nat, i: nat)
    requires Ownership(env, s) && Spent(env, s) && b < |s.workers| && s.workers[b].Claim?
    requires i < Claimed(env, s) && StopsAt(env, i)
    ensures Owner(s, i) != b
  {
    hide Ownership, Spent, StopsAt;
    OwnerIsUsedUp(env, s, i);
  }

  /** With at most 5000 threads, when item d + 4999 is claimed the worker that will report d stands
      at its report. */
  lemma ReporterWaits(
    env: PassEnv, cancel: bool, schedule: seq<Action>, states: seq<PassState>, j: nat, k: nat, w: nat, b: nat)
    returns (a: nat)
    requires env.Valid() && IsRun(env, false, cancel, schedule, states) && j <= k < |states|
    requires Overdue(states[k], w) && env.Threads() <= PROGRESS_EVERY
    requires Claimed(env, states[j]) == states[k].workers[w].done + PROGRESS_EVERY - 1
    requires b < |states[j].workers| && states[j].workers[b].Claim?
    ensures a < |states[j].workers| && states[j].workers[a] == states[k].workers[w]
  {
    hide Good, Next, Enabled, Sum;
    var s, d := states[j], states[k].workers[w].done;
    EveryStateIsGood(env, cancel, schedule, states, j);
    EveryStateIsGood(env, cancel, schedule, states, k);
    SpentInRuns(env, cancel, schedule, states, j);
    CountsAtMost(env, s);
    SumUpdate(InHand, s.workers, b, CountScanned);
    SumBounded(InHand, s.workers[b := CountScanned], 1);
    assert s.scanned >= d;
    EventsStay(env, cancel, schedule, states, j, k);
    StandingReport(env, states[k], w);
    assert MilestoneHeard(env, s, d) && MilestoneHeard(env, states[k], d) by { AllHeard(env, s, d); AllHeard(env, states[k], d); }
    assert states[k].workers[w] in multiset(states[k].workers);
    assert EmitProgress(d) in s.workers;
    a :| 0 <= a < |s.workers| && s.workers[a] == EmitProgress(d);
  }

  lemma AllHeard(env: PassEnv, s: PassState, d: nat)
    requires env.Valid() && Good(env, s)
    ensures MilestoneHeard(env, s, d)
  {
  }

  /** That reporter owns no stopping item either, as too few items would be counted after a halt. */
  lemma ReporterOwnsNone(
    env: PassEnv, cancel: bool, schedule: seq<Action>, states: seq<PassState>, j: nat, k: nat, w: nat, a: nat, i: nat)
    requires env.Valid() && IsRun(env, false, cancel, schedule, states) && j <= k < |states|
    requires Overdue(states[k], w) && env.Threads() <= PROGRESS_EVERY
    requires a < |states[j].workers| && states[j].workers[a] == states[k].workers[w]
    requires Ownership(env, states[j]) && Spent(env, states[j])
    requires i < Claimed(env, states[j]) && StopsAt(env, i)
    ensures Owner(states[j], i) != a
  {
    hide Next, Enabled, StopsAt, CountsLeft;
    var s := states[j];
    if Owner(s, i) == a {
      var f := s.places[i].at;
      assert SpentFiling(env, s.filings[f]) && s.filings[f].worker == a;
      LastWordsInRuns(env, cancel, schedule, states, j);
      SinceHalt(env, false, cancel, schedule, states, j, k);
      assert false;
    }
  }

  /** Where a report is overdue, the pass is one in which reports can be overtaken. */
  lemma OverdueNeedsWorkers(
    env: PassEnv, cancel: bool, schedule: seq<Action>, states: seq<PassState>, k: nat, w: nat)
    requires env.Valid() && IsRun(env, false, cancel, schedule, states) && k < |states| && Overdue(states[k], w)
    ensures Overtakable(env)
  {
    hide Good, Next, Enabled, Spent, StopsAt, Owner, Sum;
    var d := states[k].workers[w].done;
    EveryStateIsGood(env, cancel, schedule, states, k);
    SpentInRuns(env, cancel, schedule, states, k);
    StandingReport(env, states[k], w);
    var i: nat := d + PROGRESS_EVERY - 1;
    var j, b := ClaimMoment(env, cancel, schedule, states, k, i);
    var s := states[j];
    EveryStateIsGood(env, cancel, schedule, states, j);
    SpentInRuns(env, cancel, schedule, states, j);
    GoodParts(env, s);
    StopCountMonotone(env, 2 * PROGRESS_EVERY - 1, i);
    forall q | 0 <= q < i && StopsAt(env, q) && q in s.places ensures Owner(s, q) != b {
      ClaimerOwnsNone(env, s, b, q);
    }
    if env.Threads() > PROGRESS_EVERY {
      StopsBelow(env, s, i, {b});
    } else {
      var a := ReporterWaits(env, cancel, schedule, states, j, k, w, b);
      forall q | 0 <= q < i && StopsAt(env, q) && q in s.places ensures Owner(s, q) != a {
        ReporterOwnsNone(env, cancel, schedule, states, j, k, w, a, q);
      }
      StopsBelow(env, s, i, {a, b});
      assert |{a, b}| == 2;
    }
  }

  lemma GoodParts(env: PassEnv, s: PassState)
    requires env.Valid() && Good(env, s)
    ensures Ownership(env, s) && |s.workers| <= env.Threads()
  {
  }

  /** Where reports cannot be overtaken they ascend, under every schedule, stopped and cancelled ones
      included; so with one thread, or with fewer than 10000 items. */
  lemma ProgressInOrder(env: PassEnv, cancel: bool, s: PassState)
    requires env.Valid() && Reachable(env, false, cancel, s)
    requires env.cfg.threads < 2 || |env.work| < 10_000 || !Overtakable(env)
    ensures Ascending(Reports(s.events))
  {
    hide Reports;
    if !Ascending(Reports(s.events)) {
      var schedule, states :| IsRun(env, false, cancel, schedule, states) && states[|schedule|] == s;
      var j, w := FirstDisorder(env, cancel, schedule, states, |schedule|);
      OverdueNeedsWorkers(env, cancel, schedule, states, j, w);
      assert false;
    }
  }

  // ---- How a report is overtaken ----

  /** One operation on a held item, or the raising of the flag, whatever the flags are. */
  lemma HeldStep(env: PassEnv, s: PassState, w: nat)
    requires env.Valid() && w < |s.workers| && (s.workers[w].Holds() || s.workers[w].RaiseStop?)
    requires InRange(env, s.workers[w]) && PcAgrees(env, s.workers[w])
    ensures var t := Next(env, s, Step(w));
            var pc := t.workers[w];
            && t.workers == s.workers[w := pc] && Rank(pc) < Rank(s.workers[w])
            && (pc.Holds() || pc.RaiseStop? || pc.CountScanned?)
            && t.next == s.next && t.scanned == s.scanned && t.spawner == s.spawner
            && Reports(t.events) == Reports(s.events)
  {
    hide Reports, PassEnv.HitAt, PassEnv.Kind;
    if s.workers[w].EmitHit? {
      ReportsAppend(s.events, PortHit(env.HitAt(s.workers[w].idx)));
    }
  }

  /** Nobody has stopped and no item raises the flag: then the flags stay down. */
  lemma HeldStepQuietly(env: PassEnv, s: PassState, w: nat)
    requires env.Valid() && w < |s.workers| && s.workers[w].Holds()
    requires InRange(env, s.workers[w]) && PcAgrees(env, s.workers[w]) && !StopsAt(env, s.workers[w].idx)
    ensures var t := Next(env, s, Step(w));
            && t.localStop == s.localStop && t.cancel == s.cancel && !t.workers[w].RaiseStop?
            && (t.workers[w].Holds() ==> t.workers[w].idx == s.workers[w].idx)
  {
    hide PassEnv.HitAt, PassEnv.Kind;
  }

  /** `t` follows `s` with the same claims, counts and reports. */
  ghost predicate Onward(env: PassEnv, s: PassState, t: PassState)
    requires env.Valid()
  {
    && Reachable(env, false, false, t) && Reports(t.events) == Reports(s.events)
    && t.next == s.next && t.scanned == s.scanned && t.spawner == s.spawner
  }

  /** A worker left to itself takes its item to the count. */
  lemma {:induction false} HeldItemArrives(env: PassEnv, s: PassState, w: nat) returns (t: PassState)
    requires env.Valid() && Reachable(env, false, false, s)
    requires w < |s.workers| && (s.workers[w].Holds() || s.workers[w].RaiseStop?)
    ensures Onward(env, s, t) && t.workers == s.workers[w := CountScanned]
    ensures s.workers[w].Holds() && s.workers[w].idx < |env.work| && !StopsAt(env, s.workers[w].idx) ==>
              t.localStop == s.localStop && t.cancel == s.cancel
    decreases Rank(s.workers[w])
  {
    hide Reports, React, Apply, Next, StopsAt, Reachable;
    ReachableIsGood(env, false, s);
    HeldStep(env, s, w);
    if s.workers[w].Holds() && !StopsAt(env, s.workers[w].idx) {
      HeldStepQuietly(env, s, w);
    }
    hide Good;
    ReachableNext(env, false, false, s, Step(w));
    t := Next(env, s, Step(w));
    if !t.workers[w].CountScanned? {
      t := HeldItemArrives(env, t, w);
    }
  }

  /** The counter after a count: back to the loop head, or to a report. */
  function AfterCount(scanned: nat): Pc {
    if scanned % PROGRESS_EVERY == 0 then EmitProgress(scanned) else LoadStop
  }

  lemma CountStep(env: PassEnv, s: PassState, w: nat) returns (t: PassState)
    requires env.Valid() && Reachable(env, false, false, s) && w < |s.workers| && s.workers[w].CountScanned?
    ensures Reachable(env, false, false, t) && Reports(t.events) == Reports(s.events)
    ensures t.workers == s.workers[w := AfterCount(t.scanned)]
    ensures t.next == s.next && t.scanned == s.scanned + 1 && t.spawner == s.spawner
    ensures t.localStop == s.localStop && t.cancel == s.cancel
  {
    hide Reports, Reachable;
    t := Next(env, s, Step(w));
    ReachableNext(env, false, false, s, Step(w));
  }

  /** From the loop head to the next item, while nobody stops. */
  lemma HeadStep(env: PassEnv, s: PassState, w: nat) returns (t: PassState)
    requires env.Valid() && Reachable(env, false, false, s) && !s.localStop && !s.cancel && w < |s.workers|
    requires s.workers[w].LoadStop? || s.workers[w].LoadCancel? || (s.workers[w].Claim? && s.next < |env.work|)
    ensures Reachable(env, false, false, t) && !t.localStop && !t.cancel && Reports(t.events) == Reports(s.events)
    ensures t.workers == s.workers[w :=
      match s.workers[w]
      case LoadStop => LoadCancel
      case LoadCancel => Claim
      case _ => Connect(s.next)]
    ensures t.next == s.next + (if s.workers[w].Claim? then 1 else 0) && t.scanned == s.scanned && t.spawner == s.spawner
  {
    hide Reports, Reachable;
    t := Next(env, s, Step(w));
    ReachableNext(env, false, false, s, Step(w));
  }

  lemma NextIsClaimed(env: PassEnv, s: PassState, w: nat) returns (t: PassState)
    requires env.Valid() && Reachable(env, false, false, s) && !s.localStop && !s.cancel
    requires w < |s.workers| && s.workers[w].LoadStop? && s.next < |env.work|
    ensures Reachable(env, false, false, t) && !t.localStop && !t.cancel && Reports(t.events) == Reports(s.events)
    ensures t.workers == s.workers[w := Connect(s.next)]
    ensures t.next == s.next + 1 && t.scanned == s.scanned && t.spawner == s.spawner
  {
    hide Reports, Reachable;
    t := HeadStep(env, s, w);
    t := HeadStep(env, t, w);
    t := HeadStep(env, t, w);
  }

  /** While the first `n` items are claimed: one worker is at the loop head, the others are left with
      a stopping item each, or with the first report. */
  ghost predicate Gathering(env: PassEnv, s: PassState, n: nat)
    requires env.Valid()
  {
    && n <= |env.work| && n < 2 * PROGRESS_EVERY
    && Reachable(env, false, false, s) && !s.localStop && !s.cancel && s.spawner.Spawning? && Reports(s.events) == []
    && s.next == n && s.scanned == n - StopCount(env, n)
    && |s.workers| == StopCount(env, n) + (if s.scanned >= PROGRESS_EVERY then 1 else 0) + 1
    && s.workers[|s.workers| - 1].LoadStop?
    && forall w :: 0 <= w < |s.workers| - 1 ==> s.workers[w].Connect? || s.workers[w].EmitProgress?
  }

  lemma FirstSpawned(env: PassEnv) returns (s: PassState)
    requires env.Valid()
    ensures Gathering(env, s, 0)
  {
    hide Reachable;
    s := Init(env, false, false);
    ReachableStart(env, false, false);
    ReachableNext(env, false, false, s, Spawn);
    s := Next(env, s, Spawn);
  }

  lemma SpawnStep(env: PassEnv, s: PassState) returns (t: PassState)
    requires env.Valid() && Reachable(env, false, false, s) && s.spawner.Spawning? && |s.workers| < env.Threads()
    ensures Reachable(env, false, false, t) && t == s.(workers := s.workers + [LoadStop])
  {
    hide Reachable;
    ReachableNext(env, false, false, s, Spawn);
    t := Next(env, s, Spawn);
  }

  /** There is a worker for every item to be left. */
  lemma EnoughWorkers(env: PassEnv, n: nat)
    requires Overtakable(env) && n < 2 * PROGRESS_EVERY
    ensures n - StopCount(env, n) >= PROGRESS_EVERY ==> StopCount(env, n) + 2 <= env.Threads()
    ensures StopCount(env, n) + 1 <= env.Threads()
  {
    StopCountMonotone(env, n, 2 * PROGRESS_EVERY - 1);
  }

  lemma GatherOne(env: PassEnv, s: PassState, n: nat) returns (t: PassState)
    requires env.Valid() && Overtakable(env) && Gathering(env, s, n) && n + 1 < 2 * PROGRESS_EVERY
    ensures Gathering(env, t, n + 1)
  {
    hide Reports, Reachable, Overtakable, StopsAt, PassEnv.Threads;
    var w := |s.workers| - 1;
    WorkLeft(env, n);
    EnoughWorkers(env, n + 1);
    t := NextIsClaimed(env, s, w);
    if StopsAt(env, n) {
      t := SpawnStep(env, t);
    } else {
      t := HeldItemArrives(env, t, w);
      t := CountStep(env, t, w);
      if t.workers[w].EmitProgress? {
        t := SpawnStep(env, t);
      }
    }
  }

  lemma WorkLeft(env: PassEnv, n: nat)
    requires Overtakable(env) && n < 2 * PROGRESS_EVERY
    ensures n < |env.work|
  {
  }

  lemma {:induction false} Gathered(env: PassEnv, n: nat) returns (s: PassState)
    requires env.Valid() && Overtakable(env) && n < 2 * PROGRESS_EVERY
    ensures Gathering(env, s, n)
  {
    hide Gathering;
    if n == 0 {
      s := FirstSpawned(env);
    } else {
      s := Gathered(env, n - 1);
      s := GatherOne(env, s, n - 1);
    }
  }

  /** All 10000 items are claimed, and no worker is between its item and a report. */
  ghost predicate Poised(env: PassEnv, s: PassState, k: nat)
    requires env.Valid()
  {
    && Reachable(env, false, false, s) && Reports(s.events) == [] && s.next == 2 * PROGRESS_EVERY <= |env.work|
    && k <= |s.workers|
    && (forall w :: 0 <= w < k ==> InHand(s.workers[w]) == 0)
    && (forall w :: k <= w < |s.workers| ==> s.workers[w].Connect? || InHand(s.workers[w]) == 0)
  }

  /** The workers let go of their items one after the other. */
  lemma {:induction false} LetGo(env: PassEnv, s: PassState, k: nat) returns (t: PassState)
    requires env.Valid() && Poised(env, s, k)
    ensures Poised(env, t, |t.workers|)
    decreases |s.workers| - k
  {
    hide Reports, Reachable;
    t := s;
    if k < |s.workers| {
      if s.workers[k].Connect? {
        t := HeldItemArrives(env, s, k);
        t := CountStep(env, t, k);
      }
      t := LetGo(env, t, k + 1);
    }
  }

  lemma {:induction false} NothingInHand(workers: seq<Pc>)
    requires forall w :: 0 <= w < |workers| ==> InHand(workers[w]) == 0
    ensures Sum(InHand, workers) == 0
  {
    if workers != [] {
      NothingInHand(workers[..|workers| - 1]);
    }
  }

  /** Then all 10000 items are counted and nothing is reported, so two workers stand at reports. */
  lemma BothReportsWait(env: PassEnv, s: PassState)
    requires env.Valid() && Poised(env, s, |s.workers|)
    ensures EmitProgress(PROGRESS_EVERY) in s.workers && EmitProgress(2 * PROGRESS_EVERY) in s.workers
  {
    hide Reports;
    var schedule, states :| IsRun(env, false, false, schedule, states) && states[|schedule|] == s;
    SpentInRuns(env, false, schedule, states, |schedule|);
    NothingInHand(s.workers);
    ReachableIsGood(env, false, s);
    UnreportedStands(env, s, PROGRESS_EVERY);
    UnreportedStands(env, s, 2 * PROGRESS_EVERY);
  }

  lemma UnreportedStands(env: PassEnv, s: PassState, d: nat)
    requires env.Valid() && Good(env, s) && Milestone(d, s.scanned) && Reports(s.events) == []
    ensures EmitProgress(d) in s.workers
  {
    AllHeard(env, s, d);
    ReportCount(env, s.events, d);
  }

  lemma ReportStep(env: PassEnv, s: PassState, d: nat) returns (t: PassState)
    requires env.Valid() && Reachable(env, false, false, s) && EmitProgress(d) in s.workers
    ensures Reachable(env, false, false, t) && Reports(t.events) == Reports(s.events) + [d]
    ensures forall c :: c != d && EmitProgress(c) in s.workers ==> EmitProgress(c) in t.workers
  {
    hide Reports, Reachable;
    var w :| 0 <= w < |s.workers| && s.workers[w] == EmitProgress(d);
    ReportsAppend(s.events, Progress(env.pass, d, |env.work|));
    ReachableNext(env, false, false, s, Step(w));
    t := Next(env, s, Step(w));
    forall c | c != d && EmitProgress(c) in s.workers ensures EmitProgress(c) in t.workers {
      var v :| 0 <= v < |s.workers| && s.workers[v] == EmitProgress(c);
      assert t.workers[v] == EmitProgress(c);
    }
  }

  /** Some schedule reports 10000 before 5000. */
  lemma Overtaking(env: PassEnv) returns (s: PassState)
    requires env.Valid() && Overtakable(env)
    ensures Reachable(env, false, false, s) && Reports(s.events) == [10_000, 5_000]
  {
    hide Reports, Reachable, Overtakable;
    var n := 2 * PROGRESS_EVERY - 1;
    WorkLeft(env, n);
    s := Gathered(env, n);
    s := NextIsClaimed(env, s, |s.workers| - 1);
    s := LetGo(env, s, 0);
    BothReportsWait(env, s);
    s := ReportStep(env, s, 2 * PROGRESS_EVERY);
    s := ReportStep(env, s, PROGRESS_EVERY);
  }

  /** For given items and network: progress can be reported out of order exactly in such a pass. */
  lemma ProgressRunsBackwards(env: PassEnv)
    requires env.Valid()
    ensures (exists s :: Reachable(env, false, false, s) && !Ascending(Reports(s.events))) <==> Overtakable(env)
  {
    hide Reports, Reachable, Overtakable;
    if Overtakable(env) {
      var s := Overtaking(env);
      var r := Reports(s.events);
      assert r[0] > r[1];
    }
    forall s | Reachable(env, false, false, s) && !Ascending(Reports(s.events)) ensures Overtakable(env) {
      if !Overtakable(env) {
        ProgressInOrder(env, false, s);
      }
    }
  }

  /** A network that refuses every connect. */
  function RefusingNetwork(): Network {
    Network((_, _) => Refused, (_, _) => AdbKind.Open)
  }

  lemma {:induction false} NothingStops(env: PassEnv, n: nat)
    requires n <= |env.work| && env.net == RefusingNetwork()
    ensures StopCount(env, n) == 0
  {
    if n > 0 {
      NothingStops(env, n - 1);
    }
  }

  /** For a given configuration: some network and schedule report progress out of order exactly if the
      pass has at least two threads and 10000 items. */
  lemma SomeProgressRunsBackwards(env: PassEnv)
    requires env.Valid()
    ensures (exists net, s ::
               Reachable(env.(net := net), false, false, s) && !Ascending(Reports(s.events)))
        <==> env.cfg.threads >= 2 && |env.work| >= 10_000
  {
    hide Reports, Reachable;
    if env.cfg.threads >= 2 && |env.work| >= 2 * PROGRESS_EVERY {
      var quiet := env.(net := RefusingNetwork());
      NothingStops(quiet, 2 * PROGRESS_EVERY - 1);
      ProgressRunsBackwards(quiet);
      var s :| Reachable(quiet, false, false, s) && !Ascending(Reports(s.events));
    }
    forall net, s | Reachable(env.(net := net), false, false, s) && !Ascending(Reports(s.events))
      ensures env.cfg.threads >= 2 && |env.work| >= 2 * PROGRESS_EVERY
    {
      ProgressRunsBackwards(env.(net := net));
    }
  }
}
