/** What a scan returns, told by kinds, targets, ports and network answers alone. */
module ScanVerdict {
  import opened Sequences
  import opened ScanMachine
  import opened ScanStop
  import opened ScanRuns
  import opened TwoPassScan
  import Bits

  // ---- Which hits there are ----

  /** The network's verdict on work index `i` in one pass; without verification every port is Open. */
  predicate Verdict(cfg: ScanCfg, net: Network, pass: nat, i: nat, kind: AdbKind) {
    && net.connect(pass, i).Accepted?
    && if cfg.verifyAdb then kind == net.probe(pass, i) else kind.Open?
  }

  /** Port number `p` of target number `t` accepts in the first pass, or times out there and accepts in
      the second; `h` is the hit for it. */
  predicate FoundAt(cfg: ScanCfg, net: Network, t: nat, p: nat, h: Hit) {
    && t < |cfg.targets| && p < |cfg.ports| && h.target == cfg.targets[t] && h.port == cfg.ports[p]
    && var i := t * |cfg.ports| + p;
       Verdict(cfg, net, 1, i, h.kind) || (net.connect(1, i).TimedOut? && Verdict(cfg, net, 2, i, h.kind))
  }

  ghost predicate Found(cfg: ScanCfg, net: Network, h: Hit) {
    exists t: nat, p: nat :: FoundAt(cfg, net, t, p, h)
  }

  /** The item of target number `t` and port number `p`, tried by itself, finds exactly what is there. */
  lemma ItemFinds(cfg: ScanCfg, net: Network, t: nat, p: nat, h: Hit)
    requires t < |cfg.targets| && p < |cfg.ports|
    ensures h in ScanOne(cfg, net)(Work(t * |cfg.ports| + p, t, cfg.ports[p])) <==> FoundAt(cfg, net, t, p, h)
  {
    var w := Work(t * |cfg.ports| + p, t, cfg.ports[p]);
    PassFinds(cfg, net, 1, w, h);
    PassFinds(cfg, net, 2, w, h);
    assert ScanOne(cfg, net)(w)
        == match net.connect(1, w.id)
           case Accepted => PassHit(cfg, net, 1)(w)
           case TimedOut => PassHit(cfg, net, 2)(w)
           case Refused => [];
  }

  lemma PassFinds(cfg: ScanCfg, net: Network, pass: nat, w: Work, h: Hit)
    requires w.targetIdx < |cfg.targets|
    ensures h in PassHit(cfg, net, pass)(w) <==>
              Verdict(cfg, net, pass, w.id, h.kind) && h.target == cfg.targets[w.targetIdx] && h.port == w.port
  {
    var kind := if cfg.verifyAdb then net.probe(pass, w.id) else AdbKind.Open;
    var found := Hit(cfg.targets[w.targetIdx], w.port, kind);
    assert PassHit(cfg, net, pass)(w) == if net.connect(pass, w.id).Accepted? then [found] else [];
    assert h == found <==> h.target == found.target && h.port == found.port && h.kind == found.kind;
  }

  /** The sequential scan finds exactly these hits. */
  lemma SequentialScanFinds(cfg: ScanCfg, net: Network, h: Hit)
    ensures h in SequentialScan(cfg, net) <==> Found(cfg, net, h)
  {
    hide Collect, WorkList, FoundAt, ScanOne;
    var work := WorkList(cfg);
    if h in SequentialScan(cfg, net) {
      var i := CollectSource<Work, Hit>(ScanOne(cfg, net), work, h);
      WorkListAt(cfg, i);
      Recompose(i, |cfg.ports|);
      ItemFinds(cfg, net, i / |cfg.ports|, i % |cfg.ports|, h);
    }
    if Found(cfg, net, h) {
      var t: nat, p: nat :| FoundAt(cfg, net, t, p, h);
      PlaceExists(cfg, net, t, p, h);
      ItemExists(cfg, t, p);
      WorkListAt(cfg, t * |cfg.ports| + p);
      ItemFinds(cfg, net, t, p, h);
      CollectReaches<Work, Hit>(ScanOne(cfg, net), work, t * |cfg.ports| + p, h);
    }
  }

  lemma PlaceExists(cfg: ScanCfg, net: Network, t: nat, p: nat, h: Hit)
    requires FoundAt(cfg, net, t, p, h)
    ensures t < |cfg.targets| && p < |cfg.ports|
  {
  }

  lemma Recompose(i: nat, n: nat)
    requires n > 0
    ensures i / n * n + i % n == i && i % n < n
  {
  }

  lemma ItemExists(cfg: ScanCfg, t: nat, p: nat)
    requires t < |cfg.targets| && p < |cfg.ports|
    ensures var i := t * |cfg.ports| + p;
            i < |WorkList(cfg)| && i / |cfg.ports| == t && i % |cfg.ports| == p
  {
    WorkForAt(|cfg.targets|, cfg.ports);
    Bits.DivideRow(t, |cfg.ports|, p);
    Bits.MultiplyMonotone(t + 1, |cfg.targets|, |cfg.ports|);
    assert (t + 1) * |cfg.ports| == t * |cfg.ports| + |cfg.ports|;
  }

  // ---- The second pass, by kinds ----

  /** A hit of kind Plain or Tls under stop-on-first rules the second pass out; otherwise pending items
      and the cancel flag decide, and the header says which. */
  lemma SecondPassByKind(cfg: ScanCfg, net: Network, scan: Scan)
    requires SoundScan(cfg, net, scan)
    ensures var found := cfg.stopOnFirst && exists h :: h in scan.first.hits && (h.kind.Plain? || h.kind.Tls?);
            var n := |scan.first.pending|;
            && (found ==> scan.second.None?)
            && (!found ==> (scan.second.Some? <==> n > 0 && !scan.cancelSeen))
            && SecondHeader(cfg, scan.first, scan.cancelSeen)
               == if n == 0 then []
                  else if scan.cancelSeen then [PassSkipped(2, n, Cancelled)]
                  else if found then [PassSkipped(2, n, HitFound)]
                  else [PassStarted(2, n)]
  {
    hide Good, Joined, WorkList;
    AdbByKind(scan.first.hits);
  }

  lemma AdbByKind(hits: seq<Hit>)
    ensures HasAdb(hits) <==> exists h :: h in hits && (h.kind.Plain? || h.kind.Tls?)
  {
  }

  // ---- How many, by kinds ----

  /** The positions of the Plain and Tls hits. */
  function AdbPositions(hits: seq<Hit>): set<nat> {
    set i: nat | i < |hits| && (hits[i].kind.Plain? || hits[i].kind.Tls?)
  }

  lemma {:induction false} AdbCountByKind(hits: seq<Hit>)
    ensures |AdbPositions(hits)| == |AdbHits(hits)|
  {
    if hits == [] {
      assert AdbPositions(hits) == {};
    } else {
      var n := |hits| - 1;
      AdbCountByKind(hits[..n]);
      var last: set<nat> := if hits[n].kind.Open? then {} else {n};
      assert AdbPositions(hits) == AdbPositions(hits[..n]) + last;
    }
  }

  // ---- All of it ----

  /** What was found, by kinds and network answers: nothing but hits that are there; all of them if
      nobody cancelled, each pass had a worker, and stop-on-first is off; under stop-on-first at most one
      Plain or Tls hit per thread, and one whenever there is one; without verification only Open hits. */
  ghost predicate Tells(cfg: ScanCfg, net: Network, scan: Scan, out: seq<Hit>) {
    && (forall h :: h in out ==> Found(cfg, net, h))
    && (Manned(scan) && !cfg.stopOnFirst ==> forall h :: Found(cfg, net, h) ==> h in out)
    && (Manned(scan) && (exists h :: Found(cfg, net, h) && (h.kind.Plain? || h.kind.Tls?)) ==>
          exists h :: h in out && (h.kind.Plain? || h.kind.Tls?))
    && (Manned(scan) && !(exists h :: Found(cfg, net, h) && (h.kind.Plain? || h.kind.Tls?)) ==>
          forall h :: Found(cfg, net, h) ==> h in out)
    && (cfg.stopOnFirst ==> |AdbPositions(out)| <= if cfg.threads < 1 then 1 else cfg.threads)
    && (!cfg.verifyAdb ==> forall h :: h in out ==> h.kind.Open?)
  }

  lemma FoundByKind(cfg: ScanCfg, net: Network)
    ensures HasAdb(SequentialScan(cfg, net)) <==> exists h :: Found(cfg, net, h) && (h.kind.Plain? || h.kind.Tls?)
  {
    hide SequentialScan, Found;
    AdbByKind(SequentialScan(cfg, net));
    forall h: Hit ensures h in SequentialScan(cfg, net) <==> Found(cfg, net, h) {
      SequentialScanFinds(cfg, net, h);
    }
  }

  lemma ScanTells(cfg: ScanCfg, net: Network, scan: Scan, out: seq<Hit>)
    requires SoundScan(cfg, net, scan) && multiset(out) == multiset(scan.Last().hits)
    ensures Tells(cfg, net, scan, out)
  {
    hide SoundScan, SequentialScan, Found, Undisturbed, AdbPositions;
    forall h: Hit ensures h in SequentialScan(cfg, net) <==> Found(cfg, net, h) {
      SequentialScanFinds(cfg, net, h);
    }
    FoundByKind(cfg, net);
    NoInventedHits(cfg, net, scan);
    SameMembers(out, scan.Last().hits);
    SubMembers(out, SequentialScan(cfg, net));
    if Manned(scan) {
      StoppingCostsNoVerdict(cfg, net, scan);
      AdbByKind(scan.Last().hits);
      if Undisturbed(scan) {
        UndisturbedHits(cfg, net, scan);
        SameMembers(out, SequentialScan(cfg, net));
      }
    }
    if cfg.stopOnFirst {
      AdbCountOf(cfg, net, scan, out);
    }
    if !cfg.verifyAdb {
      OnlyOpenFound(cfg, net);
    }
  }

  lemma OnlyOpenFound(cfg: ScanCfg, net: Network)
    requires !cfg.verifyAdb
    ensures forall h :: Found(cfg, net, h) ==> h.kind.Open?
  {
  }

  lemma AdbCountOf(cfg: ScanCfg, net: Network, scan: Scan, out: seq<Hit>)
    requires SoundScan(cfg, net, scan) && multiset(out) == multiset(scan.Last().hits) && cfg.stopOnFirst
    ensures |AdbPositions(out)| <= if cfg.threads < 1 then 1 else cfg.threads
  {
    hide SoundScan, AdbPositions;
    FewAdbHits(cfg, net, scan);
    AdbCountByKind(out);
    CollectPermutation(AdbOnly, out, scan.Last().hits);
    SameSize(AdbHits(out), AdbHits(scan.Last().hits));
  }

  lemma SameMembers<T>(a: seq<T>, b: seq<T>)
    requires multiset(a) == multiset(b)
    ensures forall x :: x in a <==> x in b
  {
    assert forall x :: x in a <==> x in multiset(a);
    assert forall x :: x in b <==> x in multiset(b);
  }

  lemma SubMembers<T>(a: seq<T>, b: seq<T>)
    requires multiset(a) <= multiset(b)
    ensures forall x :: x in a ==> x in b
  {
    assert forall x :: x in a <==> x in multiset(a);
    assert forall x :: x in b <==> x in multiset(b);
  }
}
