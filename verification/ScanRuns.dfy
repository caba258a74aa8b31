/** Theorems about every schedule of one pass. */
module ScanRuns {
  import opened Net
  import opened Sequences
  import opened ScanMachine
  import opened ScanInvariants
  import opened ScanStop
  import opened ScanEvents

  ghost predicate Good(env: PassEnv, s: PassState)
    requires env.Valid()
  {
    Inv(env, s) && StopDiscipline(env, s) && EventsAgree(env, s)
  }

  lemma GoodInit(env: PassEnv, cancel: bool)
    requires env.Valid()
    ensures Good(env, Init(env, false, cancel))
  {
    InvInit(env, cancel);
    EventsAgreeInit(env, false, cancel);
  }

  lemma GoodNext(env: PassEnv, s: PassState, a: Action)
    requires env.Valid() && Good(env, s) && Enabled(env, s, a)
    ensures Good(env, Next(env, s, a))
  {
    InvNext(env, s, a);
    StopDisciplineNext(env, s, a);
    EventsAgreeNext(env, s, a);
  }

  /** Every state of every run satisfies every invariant. */
  lemma {:induction false} EveryStateIsGood(
    env: PassEnv, cancel: bool, schedule: seq<Action>, states: seq<PassState>, k: nat)
    requires env.Valid() && IsRun(env, false, cancel, schedule, states) && k < |states|
    ensures Good(env, states[k])
  {
    if k == 0 {
      GoodInit(env, cancel);
    } else {
      EveryStateIsGood(env, cancel, schedule, states, k - 1);
      GoodNext(env, states[k - 1], schedule[k - 1]);
    }
  }

  /** Some schedule of a pass begun with these flags leads to `s`. */
  ghost predicate Reachable(env: PassEnv, stop: bool, cancel: bool, s: PassState)
    requires env.Valid()
  {
    exists schedule, states :: IsRun(env, stop, cancel, schedule, states) && states[|schedule|] == s
  }

  lemma ReachableStart(env: PassEnv, stop: bool, cancel: bool)
    requires env.Valid()
    ensures Reachable(env, stop, cancel, Init(env, stop, cancel))
  {
    var schedule: seq<Action>, states := [], [Init(env, stop, cancel)];
    assert IsRun(env, stop, cancel, schedule, states) && states[|schedule|] == states[0];
  }

  /** A run can be continued by any enabled action. */
  lemma ReachableNext(env: PassEnv, stop: bool, cancel: bool, s: PassState, a: Action)
    requires env.Valid() && Reachable(env, stop, cancel, s) && Enabled(env, s, a)
    ensures Reachable(env, stop, cancel, Next(env, s, a))
  {
    hide Next, Enabled, Init;
    var schedule, states :| IsRun(env, stop, cancel, schedule, states) && states[|schedule|] == s;
    var n := |schedule|;
    var schedule', states' := schedule + [a], states + [Next(env, s, a)];
    forall k | 0 <= k < |schedule'|
      ensures Enabled(env, states'[k], schedule'[k]) && states'[k + 1] == Next(env, states'[k], schedule'[k])
    {
      assert k < n ==> schedule'[k] == schedule[k] && states'[k] == states[k] && states'[k + 1] == states[k + 1];
    }
    assert IsRun(env, stop, cancel, schedule', states') && states'[|schedule'|] == Next(env, s, a);
  }

  lemma ReachableIsGood(env: PassEnv, cancel: bool, s: PassState)
    requires env.Valid() && Reachable(env, false, cancel, s)
    ensures Good(env, s)
  {
    var schedule, states :| IsRun(env, false, cancel, schedule, states) && states[|schedule|] == s;
    EveryStateIsGood(env, cancel, schedule, states, |schedule|);
  }

  // ---- Ownership ----

  predicate InFlightWith(s: PassState, i: nat, w: nat) {
    w < |s.workers| && s.workers[w].Holds() && s.workers[w].idx == i
  }

  predicate FiledAt(s: PassState, i: nat, k: nat) {
    k < |s.filings| && s.filings[k].idx == i
  }

  /** In every reachable state, whatever was stopped or cancelled, an index is claimed exactly if
      one worker holds it or one filing disposes of it, never both and never two of either. */
  lemma ClaimedItemsAreOwnedOnce(
    env: PassEnv, cancel: bool, schedule: seq<Action>, states: seq<PassState>, at: nat, i: nat)
    requires env.Valid() && IsRun(env, false, cancel, schedule, states) && at < |states|
    ensures var s := states[at];
            && (i < Claimed(env, s) <==> (exists w :: InFlightWith(s, i, w)) || (exists k :: FiledAt(s, i, k)))
            && !((exists w :: InFlightWith(s, i, w)) && (exists k :: FiledAt(s, i, k)))
            && (forall v, w :: InFlightWith(s, i, v) && InFlightWith(s, i, w) ==> v == w)
            && (forall k, l :: FiledAt(s, i, k) && FiledAt(s, i, l) ==> k == l)
  {
    EveryStateIsGood(env, cancel, schedule, states, at);
    var s := states[at];
    if i in s.places {
      match s.places[i]
      case Flight(w) => assert InFlightWith(s, i, w);
      case Filed(k) => assert FiledAt(s, i, k);
    }
  }

  /** Whatever the schedule, the shared counter overruns the work list by at most one claim per
      worker. */
  lemma CounterIsBounded(
    env: PassEnv, cancel: bool, schedule: seq<Action>, states: seq<PassState>, at: nat)
    requires env.Valid() && IsRun(env, false, cancel, schedule, states) && at < |states|
    ensures states[at].next <= |env.work| + |states[at].workers| <= |env.work| + env.Threads()
  {
    EveryStateIsGood(env, cancel, schedule, states, at);
    CountAtMost(states[at].workers, Exited);
  }

  lemma {:induction false} CountAtMost<T>(s: seq<T>, x: T)
    ensures multiset(s)[x] <= |s|
  {
    if s != [] {
      assert s == s[..|s| - 1] + [s[|s| - 1]];
      CountAtMost(s[..|s| - 1], x);
    }
  }

  // ---- What a pass may and must record ----

  function Range(n: nat): (r: seq<nat>)
    ensures |r| == n && forall i :: 0 <= i < n ==> r[i] == i
  {
    seq(n, i => i)
  }

  function Indices(filings: seq<Filing>): (r: seq<nat>)
    ensures |r| == |filings| && forall k :: 0 <= k < |filings| ==> r[k] == filings[k].idx
  {
    seq(|filings|, k requires 0 <= k < |filings| => filings[k].idx)
  }

  function AtIndex<U>(f: Work -> seq<U>, work: seq<Work>): nat -> seq<U> {
    (i: nat) => if i < |work| then f(work[i]) else []
  }

  /** The hit that an item yields in one pass, if it accepts. */
  function PassHit(cfg: ScanCfg, net: Network, pass: nat): Work -> seq<Hit> {
    (w: Work) =>
      if net.connect(pass, w.id).Accepted? && w.targetIdx < |cfg.targets|
      then [Hit(cfg.targets[w.targetIdx], w.port, if cfg.verifyAdb then net.probe(pass, w.id) else AdbKind.Open)]
      else []
  }

  /** The item itself, if it times out. */
  function TimedOutItem(net: Network, pass: nat): Work -> seq<Work> {
    (w: Work) => if net.connect(pass, w.id).TimedOut? then [w] else []
  }

  lemma {:induction false} CollectByIndex<U>(f: Work -> seq<U>, work: seq<Work>, n: nat)
    requires n <= |work|
    ensures Collect(AtIndex(f, work), Range(n)) == Collect(f, work[..n])
  {
    if n > 0 {
      CollectByIndex(f, work, n - 1);
      assert Range(n)[..n - 1] == Range(n - 1);
      assert work[..n][..n - 1] == work[..n - 1];
    }
  }

  /** Sweeping by any arrangement of the indices collects the same values. */
  lemma SweepByIndex<U>(f: Work -> seq<U>, work: seq<Work>, order: seq<nat>)
    requires multiset(order) <= multiset(Range(|work|))
    ensures multiset(Collect(AtIndex(f, work), order)) <= multiset(Collect(f, work))
    ensures multiset(order) == multiset(Range(|work|)) ==>
              multiset(Collect(AtIndex(f, work), order)) == multiset(Collect(f, work))
  {
    CollectMonotone(AtIndex(f, work), order, Range(|work|));
    if multiset(order) == multiset(Range(|work|)) {
      CollectPermutation(AtIndex(f, work), order, Range(|work|));
    }
    CollectByIndex(f, work, |work|);
    assert work[..|work|] == work;
  }

  ghost predicate Faithful(env: PassEnv, filings: seq<Filing>, stopped: bool)
    requires env.Valid()
  {
    forall f :: f in filings ==> f.idx < |env.work| && FateAgrees(env, f, stopped)
  }

  function EnvHit(env: PassEnv): Work -> seq<Hit> {
    PassHit(env.cfg, env.net, env.pass)
  }

  lemma ItemYields(env: PassEnv, i: nat)
    requires env.Valid() && i < |env.work|
    ensures AtIndex(EnvHit(env), env.work)(i) == if env.Outcome(i).Accepted? then [env.HitAt(i)] else []
    ensures AtIndex(TimedOutItem(env.net, env.pass), env.work)(i)
         == if env.Outcome(i).TimedOut? then [env.work[i]] else []
  {
  }

  /** What was filed as a hit is what the network says about the filed items; an undisturbed pass
      leaves none of it out. */
  lemma {:induction false} FiledHits(env: PassEnv, filings: seq<Filing>, stopped: bool)
    requires env.Valid() && Faithful(env, filings, stopped)
    ensures multiset(HitsOf(env, filings)) <= multiset(Collect(AtIndex(EnvHit(env), env.work), Indices(filings)))
    ensures !stopped ==> HitsOf(env, filings) == Collect(AtIndex(EnvHit(env), env.work), Indices(filings))
  {
    if filings != [] {
      var n := |filings| - 1;
      assert filings[n] in filings;
      FiledHits(env, filings[..n], stopped);
      ItemYields(env, filings[n].idx);
      assert Indices(filings)[..n] == Indices(filings[..n]);
    }
  }

  /** Exactly the timed-out items among the filed ones await the second pass. */
  lemma {:induction false} FiledPending(env: PassEnv, filings: seq<Filing>, stopped: bool)
    requires env.Valid() && env.pass == 1 && Faithful(env, filings, stopped)
    ensures PendingOf(env, filings) == Collect(AtIndex(TimedOutItem(env.net, 1), env.work), Indices(filings))
  {
    if filings != [] {
      var n := |filings| - 1;
      assert filings[n] in filings;
      FiledPending(env, filings[..n], stopped);
      ItemYields(env, filings[n].idx);
      assert Indices(filings)[..n] == Indices(filings[..n]);
    }
  }

  /** The filed indices whose connect timed out. */
  ghost function TimedOutIndices(env: PassEnv, filings: seq<Filing>): set<nat> {
    set i: nat | i in Indices(filings) && i < |env.work| && env.Outcome(i).TimedOut?
  }

  lemma {:induction false} PendingCount(env: PassEnv, filings: seq<Filing>, stopped: bool)
    requires env.Valid() && env.pass == 1 && Faithful(env, filings, stopped) && Distinct(Indices(filings))
    ensures |PendingOf(env, filings)| == |TimedOutIndices(env, filings)|
  {
    hide PassEnv.Outcome, TimedOutIndices;
    if filings != [] {
      var n := |filings| - 1;
      var front, f := filings[..n], filings[n];
      assert f in filings && Indices(filings) == Indices(front) + [f.idx];
      PendingCount(env, front, stopped);
      assert filings == front + [f];
      OneMoreIndex(env, front, f);
    } else {
      NoIndices(env);
    }
  }

  lemma NoIndices(env: PassEnv)
    ensures TimedOutIndices(env, []) == {}
  {
  }

  lemma OneMoreIndex(env: PassEnv, front: seq<Filing>, f: Filing)
    requires f.idx < |env.work| && Distinct(Indices(front + [f]))
    ensures |TimedOutIndices(env, front + [f])|
         == |TimedOutIndices(env, front)| + if env.Outcome(f.idx).TimedOut? then 1 else 0
  {
    hide PassEnv.Outcome;
    var all := Indices(front + [f]);
    assert all == Indices(front) + [f.idx];
    DistinctLast(Indices(front), f.idx);
    hide Distinct;
    assert TimedOutIndices(env, front + [f])
        == TimedOutIndices(env, front) + if env.Outcome(f.idx).TimedOut? then {f.idx} else {};
  }

  /** Whatever was stopped or cancelled, the first pass leaves pending one item for each filed index
      whose connect timed out. */
  lemma PendingIsTimedOut(env: PassEnv, s: PassState)
    requires env.Valid() && env.pass == 1 && Good(env, s)
    ensures |s.pending| == |TimedOutIndices(env, s.filings)| <= |s.filings|
    ensures s.pending == Collect(AtIndex(TimedOutItem(env.net, 1), env.work), Indices(s.filings))
  {
    IndicesDistinct(env, s);
    FiledPending(env, s.filings, s.localStop || s.cancel);
    PendingCount(env, s.filings, s.localStop || s.cancel);
    PendingAtMost(env, s.filings);
  }

  lemma {:induction false} PendingAtMost(env: PassEnv, filings: seq<Filing>)
    requires forall f :: f in filings ==> f.idx < |env.work|
    ensures |PendingOf(env, filings)| <= |filings|
  {
    if filings != [] {
      PendingAtMost(env, filings[..|filings| - 1]);
    }
  }

  lemma IndicesDistinct(env: PassEnv, s: PassState)
    requires env.Valid() && Ownership(env, s)
    ensures Distinct(Indices(s.filings))
    ensures forall i :: i in Indices(s.filings) ==> i in Range(|env.work|)
  {
    forall i | i in Indices(s.filings) ensures i in Range(|env.work|) {
      var k :| 0 <= k < |s.filings| && s.filings[k].idx == i;
      assert Range(|env.work|)[i] == i;
    }
  }

  /** A joined pass that met no stop and no cancel, with somebody to do the work. */
  ghost predicate RanFreely(s: PassState) {
    Joined(s) && !s.localStop && !s.cancel && |s.workers| > 0
  }

  lemma IndicesContained(env: PassEnv, s: PassState)
    requires env.Valid() && Ownership(env, s)
    ensures multiset(Indices(s.filings)) <= multiset(Range(|env.work|))
  {
    IndicesDistinct(env, s);
    DistinctContained(Indices(s.filings), Range(|env.work|));
  }

  lemma FiledAtMost(env: PassEnv, s: PassState)
    requires env.Valid() && Ownership(env, s)
    ensures |s.filings| <= |env.work|
  {
    IndicesContained(env, s);
    SubsetSize(multiset(Indices(s.filings)), multiset(Range(|env.work|)));
    assert |multiset(Indices(s.filings))| == |s.filings| && |multiset(Range(|env.work|))| == |env.work|;
  }

  lemma SubsetSize<T>(a: multiset<T>, b: multiset<T>)
    requires a <= b
    ensures |a| <= |b|
  {
    assert b == a + (b - a);
  }

  /** Whatever is stopped, cancelled or never spawned, a pass invents no hit and retries no item
      that did not time out. */
  lemma EveryStateIsSound(env: PassEnv, s: PassState)
    requires env.Valid() && Good(env, s)
    ensures multiset(s.hits) <= multiset(env.hits0) + multiset(Collect(EnvHit(env), env.work))
    ensures env.pass == 1 ==> multiset(s.pending) <= multiset(Collect(TimedOutItem(env.net, 1), env.work))
  {
    IndicesContained(env, s);
    FiledHits(env, s.filings, s.localStop || s.cancel);
    if env.pass == 1 {
      FiledPending(env, s.filings, s.localStop || s.cancel);
    }
    SweepByIndex(EnvHit(env), env.work, Indices(s.filings));
    SweepByIndex(TimedOutItem(env.net, 1), env.work, Indices(s.filings));
  }

  lemma FreeRunFilesEverything(env: PassEnv, s: PassState)
    requires env.Valid() && Good(env, s) && RanFreely(s)
    ensures multiset(Indices(s.filings)) == multiset(Range(|env.work|))
    ensures s.scanned == |s.filings| == |env.work| <= s.next
  {
    assert s.workers[0] in s.workers;
    IndicesContained(env, s);
    forall i | i in Range(|env.work|) ensures i in Indices(s.filings) {
      var k := s.places[i].at;
      assert Indices(s.filings)[k] == i;
    }
    assert Distinct(Range(|env.work|));
    DistinctContained(Range(|env.work|), Indices(s.filings));
    NothingUncounted(s.workers);
    assert |multiset(Indices(s.filings))| == |s.filings| && |multiset(Range(|env.work|))| == |env.work|;
  }

  lemma {:induction false} NothingUncounted(workers: seq<Pc>)
    requires forall w :: 0 <= w < |workers| ==> workers[w].Exited?
    ensures Uncounted(workers) == 0
  {
    if workers != [] {
      NothingUncounted(workers[..|workers| - 1]);
    }
  }

  /** A free run of a pass records, up to order, what a sequential sweep over the items would. */
  lemma FreeRunIsASweep(env: PassEnv, s: PassState)
    requires env.Valid() && Good(env, s) && RanFreely(s)
    ensures multiset(s.hits) == multiset(env.hits0) + multiset(Collect(EnvHit(env), env.work))
    ensures env.pass == 1 ==> multiset(s.pending) == multiset(Collect(TimedOutItem(env.net, 1), env.work))
  {
    FreeRunFilesEverything(env, s);
    FiledHits(env, s.filings, false);
    if env.pass == 1 {
      FiledPending(env, s.filings, false);
    }
    SweepByIndex(EnvHit(env), env.work, Indices(s.filings));
    SweepByIndex(TimedOutItem(env.net, 1), env.work, Indices(s.filings));
  }

  // ---- After the stop flag ----

  lemma StepAfterFlag(env: PassEnv, s: PassState, a: Action)
    requires env.Valid() && Enabled(env, s, a) && s.localStop
    ensures var t := Next(env, s, a);
            t.localStop && |t.hits| - |s.hits| == |LateWorkers(t.filings)| - |LateWorkers(s.filings)|
  {
    if a.Step? {
      var e := React(env, s, s.workers[a.worker]);
      if e.Dispose? {
        var f := Filing(e.idx, e.fate, a.worker, true);
        assert (s.filings + [f])[..|s.filings|] == s.filings;
      }
    }
  }

  lemma {:induction false} HitsSinceFlag(
    env: PassEnv, cancel: bool, schedule: seq<Action>, states: seq<PassState>, raised: nat, at: nat)
    requires env.Valid() && IsRun(env, false, cancel, schedule, states) && raised <= at < |states|
    requires states[raised].localStop
    ensures states[at].localStop
    ensures |states[at].hits| - |states[raised].hits|
         == |LateWorkers(states[at].filings)| - |LateWorkers(states[raised].filings)|
  {
    hide Next, Enabled, LateWorkers;
    if raised < at {
      HitsSinceFlag(env, cancel, schedule, states, raised, at - 1);
      StepAfterFlag(env, states[at - 1], schedule[at - 1]);
    }
  }

  /** Once the stop flag is up it stays up, and at most workers - 1 more hits are ever recorded. */
  lemma FewHitsAfterFlag(
    env: PassEnv, cancel: bool, schedule: seq<Action>, states: seq<PassState>, raised: nat, at: nat)
    requires env.Valid() && IsRun(env, false, cancel, schedule, states) && raised <= at < |states|
    requires states[raised].localStop
    ensures states[at].localStop
    ensures |states[at].hits| - |states[raised].hits| <= |states[at].workers| - 1 <= env.Threads() - 1
  {
    EveryStateIsGood(env, cancel, schedule, states, at);
    HitsSinceFlag(env, cancel, schedule, states, raised, at);
    LateHitsBounded(env, states[at]);
  }

  /** With stop-on-first no worker records two ADB hits in one pass. */
  lemma OneAdbHitPerWorker(
    env: PassEnv, cancel: bool, schedule: seq<Action>, states: seq<PassState>, at: nat, k: nat, l: nat)
    requires env.Valid() && IsRun(env, false, cancel, schedule, states) && at < |states|
    requires env.cfg.stopOnFirst && k < l < |states[at].filings|
    requires var f, g := states[at].filings[k], states[at].filings[l];
             f.fate.Recorded? && g.fate.Recorded? && f.idx < |env.work| && g.idx < |env.work|
             && IsAdb(env.Kind(f.idx)) && IsAdb(env.Kind(g.idx))
    ensures states[at].filings[k].worker != states[at].filings[l].worker
  {
    EveryStateIsGood(env, cancel, schedule, states, at);
    assert Final(env, states[at].filings[k]) && Final(env, states[at].filings[l]);
  }

  // ---- At the join ----

  /** When a pass is joined, the PortHit events are exactly the hits it recorded, and each multiple
      of 5000 up to its scanned count has been reported exactly once. */
  lemma JoinedEvents(env: PassEnv, s: PassState)
    requires env.Valid() && Good(env, s) && Joined(s)
    ensures forall h: Hit :: multiset(s.events)[PortHit(h)] + multiset(env.hits0)[h] == multiset(s.hits)[h]
    ensures forall d: nat :: multiset(s.events)[Progress(env.pass, d, |env.work|)]
                          == if Milestone(d, s.scanned) then 1 else 0
    ensures s.scanned == |s.filings|
  {
    NothingUncounted(s.workers);
    forall h: Hit
      ensures multiset(s.events)[PortHit(h)] + multiset(env.hits0)[h] == multiset(s.hits)[h]
    {
      assert HitHeard(env, s, h);
      assert Some(h) !in AllAnnounced(env, s.workers);
    }
    forall d: nat
      ensures multiset(s.events)[Progress(env.pass, d, |env.work|)] == if Milestone(d, s.scanned) then 1 else 0
    {
      assert MilestoneHeard(env, s, d) && EmitProgress(d) !in s.workers;
    }
  }

  /** The thread notice of a joined pass: made once, with the requested and the actual number, exactly
      if they differ; the request is the configured one, whatever the number of items. */
  lemma JoinedNotice(env: PassEnv, s: PassState, pass: nat, requested: nat, actual: nat)
    requires env.Valid() && Good(env, s) && Joined(s)
    ensures multiset(s.events)[ThreadsSpawned(pass, requested, actual)]
         == if pass == env.pass && requested == env.cfg.threads && actual == |s.workers| && actual != requested
            then 1 else 0
  {
    assert OwnEvents(env, s);
  }

  /** A pass can come to have any number of workers from none to the configured one, capped by the
      items but never below one, and no other. */
  lemma WorkerCounts(env: PassEnv, n: nat)
    requires env.Valid()
    ensures (exists s :: Reachable(env, false, false, s) && |s.workers| == n)
        <==> n <= 1 || (n <= env.cfg.threads && n <= |env.work|)
  {
    hide Reachable;
    if n <= env.Threads() {
      var s := SpawnedWorkers(env, n);
    }
    forall s | Reachable(env, false, false, s) && |s.workers| == n ensures n <= env.Threads() {
      ReachableIsGood(env, false, s);
    }
  }

  lemma {:induction false} SpawnedWorkers(env: PassEnv, n: nat) returns (s: PassState)
    requires env.Valid() && n <= env.Threads()
    ensures Reachable(env, false, false, s) && |s.workers| == n && s.spawner.Spawning?
  {
    hide Reachable;
    if n == 0 {
      s := Init(env, false, false);
      ReachableStart(env, false, false);
    } else {
      s := SpawnedWorkers(env, n - 1);
      ReachableNext(env, false, false, s, Spawn);
      s := Next(env, s, Spawn);
    }
  }

  /** With nobody left at the stop store, a recorded ADB hit means the flag is up. */
  lemma JoinedWithoutFlag(env: PassEnv, s: PassState)
    requires env.Valid() && Good(env, s) && Joined(s) && !s.localStop
    requires env.cfg.stopOnFirst && !HasAdb(env.hits0)
    ensures !HasAdb(s.hits)
  {
    if HasAdb(s.hits) {
      var h :| h in s.hits && IsAdb(h.kind);
      var k := HitSource(env, s.filings, h);
      assert Final(env, s.filings[k]);
    }
  }

  /** The flag by the kinds of the hits: it is only up under stop-on-first with verification, behind a
      recorded hit of kind Plain or Tls; and a joined stop-on-first pass with the flag down has added
      none but Open hits. */
  lemma FlagByKind(env: PassEnv, s: PassState)
    requires env.Valid() && Good(env, s)
    ensures s.localStop ==>
              env.cfg.stopOnFirst && env.cfg.verifyAdb && exists h :: h in s.hits && (h.kind.Plain? || h.kind.Tls?)
    ensures Joined(s) && env.cfg.stopOnFirst && !s.localStop && (forall h :: h in env.hits0 ==> h.kind.Open?) ==>
              forall h :: h in s.hits ==> h.kind.Open?
    ensures !env.cfg.verifyAdb && (forall h :: h in env.hits0 ==> h.kind.Open?) ==>
              forall h :: h in s.hits ==> h.kind.Open?
  {
    if s.localStop {
      assert HasAdb(s.hits);
      var k :| 0 <= k < |s.filings| && Ends(env, s.filings[k]);
    }
    if Joined(s) && env.cfg.stopOnFirst && !s.localStop && forall h :: h in env.hits0 ==> h.kind.Open? {
      JoinedWithoutFlag(env, s);
    }
    if !env.cfg.verifyAdb {
      forall h | h in s.hits && h !in env.hits0 ensures h.kind.Open? {
        var k := HitSource(env, s.filings, h);
      }
    }
  }

  lemma {:induction false} HitSource(env: PassEnv, filings: seq<Filing>, h: Hit) returns (k: nat)
    requires env.Valid() && (forall f :: f in filings ==> f.idx < |env.work|)
    requires h in HitsOf(env, filings)
    ensures k < |filings| && filings[k].fate.Recorded? && env.HitAt(filings[k].idx) == h
  {
    k := |filings| - 1;
    if !filings[k].fate.Recorded? || env.HitAt(filings[k].idx) != h {
      k := HitSource(env, filings[..k], h);
    }
  }
}
