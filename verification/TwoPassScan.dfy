/** Whole scans: the first pass, the decision about the second, and what the caller gets. */
module TwoPassScan {
  import opened Net
  import opened Bits
  import opened Sequences
  import opened ScanMachine
  import opened ScanInvariants
  import opened ScanStop
  import opened ScanEvents
  import opened ScanRuns
  import opened HitOrder

  // ---- The work list ----

  function Row(ports: seq<U16>, ti: nat): (r: seq<Work>)
    ensures |r| == |ports|
    ensures forall j :: 0 <= j < |ports| ==> r[j] == Work(ti * |ports| + j, ti, ports[j])
  {
    seq(|ports|, j requires 0 <= j < |ports| => Work(ti * |ports| + j, ti, ports[j]))
  }

  /** Every port of the first `n` targets, target by target. */
  function WorkFor(n: nat, ports: seq<U16>): seq<Work> {
    if n == 0 then [] else WorkFor(n - 1, ports) + Row(ports, n - 1)
  }

  function WorkList(cfg: ScanCfg): seq<Work> {
    WorkFor(|cfg.targets|, cfg.ports)
  }

  lemma {:induction false} WorkForAt(n: nat, ports: seq<U16>)
    ensures |WorkFor(n, ports)| == n * |ports|
    ensures forall i :: 0 <= i < |WorkFor(n, ports)| ==>
              |ports| > 0 && WorkFor(n, ports)[i] == Work(i, i / |ports|, ports[i % |ports|])
              && i / |ports| < n
  {
    if n > 0 {
      var p := |ports|;
      WorkForAt(n - 1, ports);
      assert n * p == (n - 1) * p + p;
      forall i | (n - 1) * p <= i < n * p
        ensures p > 0 && i / p == n - 1 && i % p == i - (n - 1) * p
      {
        DivideRow(n - 1, p, i - (n - 1) * p);
      }
    }
  }

  /** Work index i is port i mod |ports| of target i div |ports|, and carries i as its tag; so no
      target/port position occurs twice. */
  lemma WorkListAt(cfg: ScanCfg, i: nat)
    requires i < |WorkList(cfg)|
    ensures |WorkList(cfg)| == |cfg.targets| * |cfg.ports| && |cfg.ports| > 0
    ensures WorkList(cfg)[i] == Work(i, i / |cfg.ports|, cfg.ports[i % |cfg.ports|])
    ensures WorkList(cfg)[i].targetIdx < |cfg.targets|
  {
    WorkForAt(|cfg.targets|, cfg.ports);
  }

  lemma WorkListSize(cfg: ScanCfg)
    ensures |WorkList(cfg)| == |cfg.targets| * |cfg.ports|
  {
    WorkForAt(|cfg.targets|, cfg.ports);
  }

  // ---- A scan ----

  function FirstEnv(cfg: ScanCfg, net: Network): PassEnv {
    PassEnv(cfg, net, 1, WorkList(cfg), [])
  }

  /** The second pass retries what the first left pending and adds to its hits. */
  function SecondEnv(cfg: ScanCfg, net: Network, first: PassState): PassEnv {
    PassEnv(cfg, net, 2, first.pending, first.hits)
  }

  lemma FirstEnvValid(cfg: ScanCfg, net: Network)
    ensures FirstEnv(cfg, net).Valid()
  {
    forall i | 0 <= i < |WorkList(cfg)| ensures WorkList(cfg)[i].targetIdx < |cfg.targets| {
      WorkListAt(cfg, i);
    }
  }

  lemma {:induction false} PendingFromWork(env: PassEnv, filings: seq<Filing>)
    requires env.Valid() && forall f :: f in filings ==> f.idx < |env.work|
    ensures forall w :: w in PendingOf(env, filings) ==> w.targetIdx < |env.cfg.targets|
  {
    if filings != [] {
      PendingFromWork(env, filings[..|filings| - 1]);
    }
  }

  lemma SecondEnvValid(cfg: ScanCfg, net: Network, first: PassState)
    requires FirstEnv(cfg, net).Valid() && Inv(FirstEnv(cfg, net), first)
    ensures SecondEnv(cfg, net, first).Valid()
  {
    PendingFromWork(FirstEnv(cfg, net), first.filings);
  }

  /** `s` is where some schedule leaves a joined pass. */
  ghost predicate Outcome(env: PassEnv, stop: bool, cancel: bool, s: PassState)
    requires env.Valid()
  {
    Reachable(env, stop, cancel, s) && Joined(s)
  }

  /** The end of the first pass, the cancel flag as read after it, and the end of the second. */
  datatype Scan = Scan(first: PassState, cancelSeen: bool, second: Option<PassState>) {
    function Last(): PassState {
      if second.Some? then second.value else first
    }
  }

  predicate SecondPassDue(cfg: ScanCfg, first: PassState, cancelSeen: bool) {
    first.pending != [] && !cancelSeen && !(cfg.stopOnFirst && HasAdb(first.hits))
  }

  /** A scan whose passes end in joined states satisfying every invariant. */
  ghost predicate SoundScan(cfg: ScanCfg, net: Network, scan: Scan) {
    var env := FirstEnv(cfg, net);
    && env.Valid() && Good(env, scan.first) && Joined(scan.first)
    && (scan.first.cancel ==> scan.cancelSeen)
    && (scan.second.Some? <==> SecondPassDue(cfg, scan.first, scan.cancelSeen))
    && (scan.second.Some? ==>
          var env2 := SecondEnv(cfg, net, scan.first);
          env2.Valid() && Good(env2, scan.second.value) && Joined(scan.second.value))
  }

  /** A scan made by some schedule of each pass, begun with the cancel token down; the second pass
      inherits the stop flag of the first. */
  ghost predicate IsScan(cfg: ScanCfg, net: Network, scan: Scan) {
    var env := FirstEnv(cfg, net);
    && env.Valid() && Outcome(env, false, false, scan.first)
    && (scan.first.cancel ==> scan.cancelSeen)
    && (scan.second.Some? <==> SecondPassDue(cfg, scan.first, scan.cancelSeen))
    && (scan.second.Some? ==>
          var env2 := SecondEnv(cfg, net, scan.first);
          env2.Valid() && Outcome(env2, scan.first.localStop, scan.cancelSeen, scan.second.value))
  }

  lemma OutcomeIsGood(env: PassEnv, cancel: bool, s: PassState)
    requires env.Valid() && Outcome(env, false, cancel, s)
    ensures Good(env, s) && Joined(s)
  {
    ReachableIsGood(env, cancel, s);
  }

  /** The second pass, whenever it starts, starts with the stop flag down. */
  lemma SecondPassStartsUnstopped(cfg: ScanCfg, net: Network, first: PassState, cancelSeen: bool)
    requires FirstEnv(cfg, net).Valid() && Outcome(FirstEnv(cfg, net), false, false, first)
    requires SecondPassDue(cfg, first, cancelSeen)
    ensures !first.localStop
  {
    OutcomeIsGood(FirstEnv(cfg, net), false, first);
  }

  lemma ScansAreSound(cfg: ScanCfg, net: Network, scan: Scan)
    requires IsScan(cfg, net, scan)
    ensures SoundScan(cfg, net, scan)
  {
    OutcomeIsGood(FirstEnv(cfg, net), false, scan.first);
    if scan.second.Some? {
      SecondPassStartsUnstopped(cfg, net, scan.first, scan.cancelSeen);
      OutcomeIsGood(SecondEnv(cfg, net, scan.first), scan.cancelSeen, scan.second.value);
    }
  }

  // ---- The sequential reference ----

  /** One item on its own: try it, and try it once more if it timed out. */
  function ScanOne(cfg: ScanCfg, net: Network): Work -> seq<Hit> {
    (w: Work) =>
      match net.connect(1, w.id)
      case Accepted => PassHit(cfg, net, 1)(w)
      case TimedOut => PassHit(cfg, net, 2)(w)
      case Refused => []
  }

  function SequentialScan(cfg: ScanCfg, net: Network): seq<Hit> {
    Collect(ScanOne(cfg, net), WorkList(cfg))
  }

  /** Sweeping the items and then the timed-out ones finds what scanning item by item finds. */
  lemma {:induction false} TwoSweeps(cfg: ScanCfg, net: Network, work: seq<Work>)
    ensures multiset(Collect(ScanOne(cfg, net), work))
         == multiset(Collect(PassHit(cfg, net, 1), work))
            + multiset(Collect(PassHit(cfg, net, 2), Collect(TimedOutItem(net, 1), work)))
  {
    if work != [] {
      var n := |work| - 1;
      TwoSweeps(cfg, net, work[..n]);
      var again := TimedOutItem(net, 1)(work[n]);
      CollectConcat(PassHit(cfg, net, 2), Collect(TimedOutItem(net, 1), work[..n]), again);
      ItemTwice(cfg, net, work[n]);
    }
  }

  lemma ItemTwice(cfg: ScanCfg, net: Network, w: Work)
    ensures ScanOne(cfg, net)(w)
         == PassHit(cfg, net, 1)(w) + Collect(PassHit(cfg, net, 2), TimedOutItem(net, 1)(w))
  {
    assert [w][..0] == [];
  }

  // ---- The theorems ----

  /** Nobody cancelled, the stop flag stayed down, and each pass that ran had a worker. */
  ghost predicate Undisturbed(scan: Scan) {
    && !scan.cancelSeen && RanFreely(scan.first)
    && (scan.second.Some? ==> RanFreely(scan.second.value))
  }

  lemma UndisturbedHits(cfg: ScanCfg, net: Network, scan: Scan)
    requires SoundScan(cfg, net, scan) && Undisturbed(scan)
    ensures multiset(scan.Last().hits) == multiset(SequentialScan(cfg, net))
  {
    hide WorkList, PassHit, TimedOutItem, ScanOne, StopDiscipline, EventsAgree;
    var env := FirstEnv(cfg, net);
    FreeRunIsASweep(env, scan.first);
    TwoSweeps(cfg, net, env.work);
    var timedOut := Collect(TimedOutItem(net, 1), env.work);
    CollectPermutation(PassHit(cfg, net, 2), scan.first.pending, timedOut);
    if scan.second.Some? {
      FreeRunIsASweep(SecondEnv(cfg, net, scan.first), scan.second.value);
    } else {
      if cfg.stopOnFirst {
        JoinedWithoutFlag(env, scan.first);
      }
      assert scan.first.pending == [];
    }
  }

  /** Nobody cancelled and each pass that ran had a worker; the stop flag may have been raised. */
  ghost predicate Manned(scan: Scan) {
    !scan.cancelSeen && !scan.Last().cancel && |scan.first.workers| > 0 && |scan.Last().workers| > 0
  }

  /** In a manned scan stopping early costs no verdict: an ADB hit is returned exactly if the
      sequential scan has one, and only such a hit under stop-on-first can cut the result short. */
  lemma StoppingCostsNoVerdict(cfg: ScanCfg, net: Network, scan: Scan)
    requires SoundScan(cfg, net, scan) && Manned(scan)
    ensures HasAdb(scan.Last().hits) <==> HasAdb(SequentialScan(cfg, net))
    ensures !(cfg.stopOnFirst && HasAdb(SequentialScan(cfg, net))) ==> Undisturbed(scan)
  {
    NoInventedHits(cfg, net, scan);
    SubsetHasAdb(scan.Last().hits, SequentialScan(cfg, net));
    if Undisturbed(scan) {
      UndisturbedHits(cfg, net, scan);
      SubsetHasAdb(SequentialScan(cfg, net), scan.Last().hits);
    }
  }

  lemma SubsetHasAdb(a: seq<Hit>, b: seq<Hit>)
    requires multiset(a) <= multiset(b)
    ensures HasAdb(a) ==> HasAdb(b)
  {
    if HasAdb(a) {
      var h :| h in a && IsAdb(h.kind);
      assert h in multiset(a) && h in multiset(b);
    }
  }

  /** Every interleaving of a manned scan, with any number of workers, finds the hits of the sequential
      scan and returns them with the same sequence of sort keys, unless stop-on-first has an ADB hit to
      stop at. */
  lemma ScanRefinesSequentialScan(cfg: ScanCfg, net: Network, scan: Scan)
    requires IsScan(cfg, net, scan) && Manned(scan)
    requires !(cfg.stopOnFirst && HasAdb(SequentialScan(cfg, net)))
    ensures multiset(scan.Last().hits) == multiset(SequentialScan(cfg, net))
    ensures Keys(StableSort(HitLeq, scan.Last().hits)) == Keys(StableSort(HitLeq, SequentialScan(cfg, net)))
  {
    hide SequentialScan, Keys, Undisturbed;
    ScansAreSound(cfg, net, scan);
    StoppingCostsNoVerdict(cfg, net, scan);
    UndisturbedHits(cfg, net, scan);
    SortedKeysAgree(scan.Last().hits, SequentialScan(cfg, net));
  }

  /** Stopped, cancelled or starved of workers, a scan never reports a hit that the sequential scan
      would not, nor one of them more often. */
  lemma NoInventedHits(cfg: ScanCfg, net: Network, scan: Scan)
    requires SoundScan(cfg, net, scan)
    ensures multiset(scan.Last().hits) <= multiset(SequentialScan(cfg, net))
  {
    var env := FirstEnv(cfg, net);
    EveryStateIsSound(env, scan.first);
    TwoSweeps(cfg, net, env.work);
    CollectMonotone(PassHit(cfg, net, 2), scan.first.pending, Collect(TimedOutItem(net, 1), env.work));
    if scan.second.Some? {
      EveryStateIsSound(SecondEnv(cfg, net, scan.first), scan.second.value);
    }
  }

  lemma {:induction false} NoAdbHits(hits: seq<Hit>)
    requires !HasAdb(hits)
    ensures AdbHits(hits) == []
  {
    if hits != [] {
      var n := |hits| - 1;
      assert hits[n] in hits;
      assert forall h :: h in hits[..n] ==> h in hits;
      NoAdbHits(hits[..n]);
    }
  }

  /** With stop-on-first a whole scan records at most max(1, threads) ADB hits. */
  lemma FewAdbHits(cfg: ScanCfg, net: Network, scan: Scan)
    requires SoundScan(cfg, net, scan) && cfg.stopOnFirst
    ensures |AdbHits(scan.Last().hits)| <= if cfg.threads < 1 then 1 else cfg.threads
  {
    var env := FirstEnv(cfg, net);
    AdbHitsBounded(env, scan.first);
    assert scan.first.hits == HitsOf(env, scan.first.filings);
    if scan.second.Some? {
      var env2, s := SecondEnv(cfg, net, scan.first), scan.second.value;
      AdbHitsBounded(env2, s);
      NoAdbHits(scan.first.hits);
      CollectConcat(AdbOnly, scan.first.hits, HitsOf(env2, s.filings));
    }
  }

  // ---- The event stream ----

  /** The header of the second pass: started, or skipped with the reason the code gives. */
  function SecondHeader(cfg: ScanCfg, first: PassState, cancelSeen: bool): seq<ScanEvent> {
    if first.pending == [] then []
    else if SecondPassDue(cfg, first, cancelSeen) then [PassStarted(2, |first.pending|)]
    else [PassSkipped(2, |first.pending|, if cancelSeen then Cancelled else HitFound)]
  }

  function ScanLog(cfg: ScanCfg, scan: Scan): seq<ScanEvent> {
    [PassStarted(1, |WorkList(cfg)|)] + scan.first.events + SecondHeader(cfg, scan.first, scan.cancelSeen)
    + if scan.second.Some? then scan.second.value.events else []
  }

  predicate IsHeader(e: ScanEvent, pass: nat) {
    (e.PassStarted? || e.PassSkipped?) && e.pass == pass
  }

  predicate InPass(e: ScanEvent, pass: nat) {
    e.PortHit? || e.pass == pass
  }

  /** A stream with its pass-2 header, if any, at `at`: it begins with the only header of pass 1, which
      counts all target/port pairs; a pass-2 header occurs exactly if some item was left pending, at one
      place, with that count, and of the kind and for the reason that the flags and hits of the first
      pass call for; every event before it is of pass 1 and every event after it of pass 2. */
  ghost predicate Orderly(cfg: ScanCfg, scan: Scan, log: seq<ScanEvent>, at: nat) {
    && log != []
    && log[0] == PassStarted(1, |cfg.targets| * |cfg.ports|)
    && (forall i :: 0 < i < |log| ==> !IsHeader(log[i], 1))
    && (at < |log| <==> scan.first.pending != [])
    && (forall i :: 0 <= i < |log| ==> (IsHeader(log[i], 2) <==> i == at))
    && (at < |log| ==>
          var n := |scan.first.pending|;
          var hitFound := cfg.stopOnFirst && HasAdb(scan.first.hits);
          && (log[at] == PassStarted(2, n) <==> !scan.cancelSeen && !hitFound)
          && (log[at] == PassSkipped(2, n, Cancelled) <==> scan.cancelSeen)
          && (log[at] == PassSkipped(2, n, HitFound) <==> !scan.cancelSeen && hitFound))
    && (forall i :: 0 <= i < |log| ==> InPass(log[i], if i < at then 1 else 2))
  }

  /** The stream of a scan is orderly, and its PortHit events are the returned hits. */
  lemma ScanLogAgrees(cfg: ScanCfg, net: Network, scan: Scan)
    requires SoundScan(cfg, net, scan)
    ensures Orderly(cfg, scan, ScanLog(cfg, scan), 1 + |scan.first.events|)
    ensures forall h: Hit :: multiset(ScanLog(cfg, scan))[PortHit(h)] == multiset(scan.Last().hits)[h]
  {
    hide ScanLog, Good, Joined, WorkList, HasAdb;
    LogHits(cfg, net, scan);
    SoundParts(cfg, net, scan);
    LogPhases(cfg, net, scan);
    LogBeginning(cfg, net, scan);
    LogHeader(cfg, net, scan);
  }

  lemma SoundParts(cfg: ScanCfg, net: Network, scan: Scan)
    requires SoundScan(cfg, net, scan)
    ensures OwnEvents(FirstEnv(cfg, net), scan.first)
    ensures scan.second.Some? <==> SecondPassDue(cfg, scan.first, scan.cancelSeen)
    ensures scan.second.Some? ==> OwnEvents(SecondEnv(cfg, net, scan.first), scan.second.value)
  {
  }

  lemma LogHeader(cfg: ScanCfg, net: Network, scan: Scan)
    requires scan.second.Some? <==> SecondPassDue(cfg, scan.first, scan.cancelSeen)
    ensures var log := ScanLog(cfg, scan);
            var at := 1 + |scan.first.events|;
            && log != []
            && (at < |log| <==> scan.first.pending != [])
            && (at < |log| ==>
                  var hitFound := cfg.stopOnFirst && HasAdb(scan.first.hits);
                  && (log[at] == PassStarted(2, |scan.first.pending|) <==> !scan.cancelSeen && !hitFound)
                  && (log[at] == PassSkipped(2, |scan.first.pending|, Cancelled) <==> scan.cancelSeen)
                  && (log[at] == PassSkipped(2, |scan.first.pending|, HitFound) <==> !scan.cancelSeen && hitFound))
  {
    hide HasAdb, WorkList;
  }

  lemma LogBeginning(cfg: ScanCfg, net: Network, scan: Scan)
    requires OwnEvents(FirstEnv(cfg, net), scan.first)
    requires scan.second.Some? ==> OwnEvents(SecondEnv(cfg, net, scan.first), scan.second.value)
    ensures var log := ScanLog(cfg, scan);
            log != [] && log[0] == PassStarted(1, |cfg.targets| * |cfg.ports|)
            && forall i :: 0 < i < |log| ==> !IsHeader(log[i], 1)
  {
    hide WorkList;
    WorkListSize(cfg);
    var log := ScanLog(cfg, scan);
    var middle := SecondHeader(cfg, scan.first, scan.cancelSeen);
    var tail := if scan.second.Some? then scan.second.value.events else [];
    assert log == [PassStarted(1, |WorkList(cfg)|)] + scan.first.events + middle + tail;
    forall i | 0 < i < |log| ensures !IsHeader(log[i], 1) {
      assert log[i] in scan.first.events || log[i] in middle || log[i] in tail;
    }
  }

  /** The number in the pass-2 header: of the items disposed of in the first pass, whether it was
      stopped, cancelled or neither, those whose connect timed out. */
  lemma HeaderCountsTimeouts(cfg: ScanCfg, net: Network, scan: Scan)
    requires SoundScan(cfg, net, scan)
    ensures var env := FirstEnv(cfg, net);
            |scan.first.pending| == |TimedOutIndices(env, scan.first.filings)| <= scan.first.scanned <= |env.work|
  {
    var env := FirstEnv(cfg, net);
    PendingIsTimedOut(env, scan.first);
    JoinedEvents(env, scan.first);
    FiledAtMost(env, scan.first);
  }

  /** Each pass reports every multiple of 5000 up to its scanned count once, and no other progress. */
  lemma ScanLogProgress(cfg: ScanCfg, net: Network, scan: Scan, pass: nat, done: nat, total: nat)
    requires SoundScan(cfg, net, scan)
    ensures multiset(ScanLog(cfg, scan))[Progress(pass, done, total)]
         == if done % 5_000 == 0 && done > 0
               && ((pass == 1 && total == |WorkList(cfg)| && done <= scan.first.scanned)
                   || (pass == 2 && scan.second.Some? && total == |scan.first.pending|
                       && done <= scan.second.value.scanned))
            then 1 else 0
  {
    hide Good, Joined, WorkList;
    var head := [PassStarted(1, |WorkList(cfg)|)];
    var middle := SecondHeader(cfg, scan.first, scan.cancelSeen);
    var tail := if scan.second.Some? then scan.second.value.events else [];
    var e := Progress(pass, done, total);
    PassProgress(FirstEnv(cfg, net), scan.first, pass, done, total);
    if scan.second.Some? {
      PassProgress(SecondEnv(cfg, net, scan.first), scan.second.value, pass, done, total);
    }
    assert e !in head && e !in middle;
    assert ScanLog(cfg, scan) == head + scan.first.events + middle + tail;
  }

  lemma PassProgress(env: PassEnv, s: PassState, pass: nat, done: nat, total: nat)
    requires env.Valid() && Good(env, s) && Joined(s)
    ensures multiset(s.events)[Progress(pass, done, total)]
         == if pass == env.pass && total == |env.work| && done % 5_000 == 0 && 0 < done <= s.scanned then 1 else 0
  {
    JoinedEvents(env, s);
    assert OwnEvents(env, s);
  }

  lemma LogHits(cfg: ScanCfg, net: Network, scan: Scan)
    requires SoundScan(cfg, net, scan)
    ensures forall h: Hit :: multiset(ScanLog(cfg, scan))[PortHit(h)] == multiset(scan.Last().hits)[h]
  {
    var head := [PassStarted(1, |WorkList(cfg)|)];
    var middle := SecondHeader(cfg, scan.first, scan.cancelSeen);
    var tail := if scan.second.Some? then scan.second.value.events else [];
    JoinedEvents(FirstEnv(cfg, net), scan.first);
    if scan.second.Some? {
      JoinedEvents(SecondEnv(cfg, net, scan.first), scan.second.value);
    }
    forall h: Hit ensures multiset(ScanLog(cfg, scan))[PortHit(h)] == multiset(scan.Last().hits)[h] {
      assert PortHit(h) !in head && PortHit(h) !in middle;
      assert ScanLog(cfg, scan) == head + scan.first.events + middle + tail;
    }
  }

  lemma LogPhases(cfg: ScanCfg, net: Network, scan: Scan)
    requires OwnEvents(FirstEnv(cfg, net), scan.first)
    requires scan.second.Some? <==> SecondPassDue(cfg, scan.first, scan.cancelSeen)
    requires scan.second.Some? ==> OwnEvents(SecondEnv(cfg, net, scan.first), scan.second.value)
    ensures var log := ScanLog(cfg, scan);
            var at := 1 + |scan.first.events|;
            forall i :: 0 <= i < |log| ==>
              (IsHeader(log[i], 2) <==> i == at) && InPass(log[i], if i < at then 1 else 2)
  {
    var log := ScanLog(cfg, scan);
    var at := 1 + |scan.first.events|;
    forall i | 0 <= i < |log|
      ensures (IsHeader(log[i], 2) <==> i == at) && InPass(log[i], if i < at then 1 else 2)
    {
      if 0 < i < at {
        assert log[i] == scan.first.events[i - 1];
        assert log[i] in scan.first.events;
      } else if at < i {
        assert log[i] == scan.second.value.events[i - at - 1];
        assert log[i] in scan.second.value.events;
      }
    }
  }
}
