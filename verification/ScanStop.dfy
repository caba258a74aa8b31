/** The stop protocol: what happens once a worker has recorded an ADB hit. */
module ScanStop {
  import opened Sequences
  import opened ScanMachine
  import opened ScanInvariants

  /** A worker that can leave the loop without touching another item. */
  predicate Quiet(pc: Pc) {
    pc.RaiseStop? || pc.CountScanned? || pc.EmitProgress? || pc.LoadStop? || pc.Exited?
  }

  /** A recorded ADB hit that ends the scan. */
  predicate Ends(env: PassEnv, f: Filing) {
    f.fate.Recorded? && f.idx < |env.work| && env.Stops(f.idx)
  }

  predicate RecordedLate(f: Filing) {
    f.fate.Recorded? && f.late
  }

  /** A filing after which its worker records nothing more. */
  predicate Final(env: PassEnv, f: Filing) {
    Ends(env, f) || RecordedLate(f)
  }

  /** Every worker makes at most one final filing, and is on its way out after it. */
  ghost predicate Finality(env: PassEnv, s: PassState) {
    && (forall k :: 0 <= k < |s.filings| ==> s.filings[k].worker < |s.workers|)
    && (forall k :: 0 <= k < |s.filings| && s.filings[k].late ==> s.localStop)
    && (forall k :: 0 <= k < |s.filings| && Final(env, s.filings[k]) ==>
          var pc := s.workers[s.filings[k].worker]; Quiet(pc) && (s.localStop || pc.RaiseStop?))
    && (forall k, l :: 0 <= k < l < |s.filings| && Final(env, s.filings[k]) && Final(env, s.filings[l]) ==>
          s.filings[k].worker != s.filings[l].worker)
  }

  /** Whoever raises the flag has recorded an ADB hit, and the first to do so recorded it in time. */
  ghost predicate Raisers(env: PassEnv, s: PassState) {
    && (forall k :: 0 <= k < |s.filings| && s.filings[k].late ==> s.localStop)
    && (forall w :: 0 <= w < |s.workers| && s.workers[w].RaiseStop? ==>
          exists k :: 0 <= k < |s.filings| && Ends(env, s.filings[k]) && s.filings[k].worker == w)
    && (s.localStop ==> exists k :: 0 <= k < |s.filings| && Ends(env, s.filings[k]) && !s.filings[k].late)
  }

  ghost predicate StopDiscipline(env: PassEnv, s: PassState) {
    Finality(env, s) && Raisers(env, s)
  }

  /** How a worker's next operation fits the stop protocol. */
  predicate Disciplined(env: PassEnv, s: PassState, pc: Pc, e: Effect) {
    match e
    case Goto(to) => !pc.RaiseStop? && !to.RaiseStop? && (Quiet(pc) && s.localStop ==> Quiet(to))
    case Log(_, to) => !pc.RaiseStop? && !to.RaiseStop? && (Quiet(pc) ==> Quiet(to))
    case Dispose(i, fate, to) =>
      && i < |env.work| && !Quiet(pc) && Quiet(to)
      && (to.RaiseStop? <==> fate.Recorded? && env.Stops(i))
    case RaiseFlag(to) => pc.RaiseStop? && to.CountScanned?
    case ClaimNext => !Quiet(pc)
    case CountOne => pc.CountScanned?
  }

  lemma ReactDisciplined(env: PassEnv, s: PassState, pc: Pc)
    requires env.Valid() && InRange(env, pc)
    ensures Disciplined(env, s, pc, React(env, s, pc))
  {
  }

  lemma StopDisciplineNext(env: PassEnv, s: PassState, a: Action)
    requires env.Valid() && StopDiscipline(env, s) && Enabled(env, s, a)
    ensures StopDiscipline(env, Next(env, s, a))
  {
    if a.Step? {
      var pc := s.workers[a.worker];
      var e := React(env, s, pc);
      ReactDisciplined(env, s, pc);
      if e.Dispose? {
        FinalityDispose(env, s, a.worker, e);
        RaisersDispose(env, s, a.worker, e);
      } else {
        FinalityMove(env, s, a.worker, e);
        RaisersMove(env, s, a.worker, e);
      }
    } else {
      assert Next(env, s, a).filings == s.filings;
    }
  }

  lemma FinalityMove(env: PassEnv, s: PassState, w: nat, e: Effect)
    requires env.Valid() && Finality(env, s) && w < |s.workers|
    requires Disciplined(env, s, s.workers[w], e) && !e.Dispose?
    ensures Finality(env, Apply(env, s, w, e))
  {
    var t := Apply(env, s, w, e);
    assert t.filings == s.filings && t.workers == s.workers[w := t.workers[w]];
  }

  lemma FinalityDispose(env: PassEnv, s: PassState, w: nat, e: Effect)
    requires env.Valid() && Finality(env, s) && w < |s.workers|
    requires Disciplined(env, s, s.workers[w], e) && e.Dispose?
    ensures Finality(env, Apply(env, s, w, e))
  {
    var t := Apply(env, s, w, e);
    assert forall k :: 0 <= k < |s.filings| ==> t.filings[k] == s.filings[k];
    assert forall k :: 0 <= k < |s.filings| && Final(env, s.filings[k]) ==> s.filings[k].worker != w;
  }

  lemma RaisersMove(env: PassEnv, s: PassState, w: nat, e: Effect)
    requires env.Valid() && Raisers(env, s) && w < |s.workers|
    requires Disciplined(env, s, s.workers[w], e) && !e.Dispose?
    ensures Raisers(env, Apply(env, s, w, e))
  {
    var t := Apply(env, s, w, e);
    assert t.filings == s.filings && t.workers == s.workers[w := t.workers[w]];
    if e.RaiseFlag? {
      var k :| 0 <= k < |s.filings| && Ends(env, s.filings[k]) && s.filings[k].worker == w;
      assert !s.localStop ==> !s.filings[k].late;
    }
  }

  lemma RaisersDispose(env: PassEnv, s: PassState, w: nat, e: Effect)
    requires env.Valid() && Raisers(env, s) && w < |s.workers|
    requires Disciplined(env, s, s.workers[w], e) && e.Dispose?
    ensures Raisers(env, Apply(env, s, w, e))
  {
    var t := Apply(env, s, w, e);
    var n := |s.filings|;
    assert forall k :: 0 <= k < n ==> t.filings[k] == s.filings[k];
    assert t.workers[w].RaiseStop? ==> Ends(env, t.filings[n]);
    forall v | 0 <= v < |t.workers| && t.workers[v].RaiseStop? && v != w
      ensures exists k :: 0 <= k < |t.filings| && Ends(env, t.filings[k]) && t.filings[k].worker == v
    {
      var k :| 0 <= k < n && Ends(env, s.filings[k]) && s.filings[k].worker == v;
      assert Ends(env, t.filings[k]);
    }
    if s.localStop {
      var k :| 0 <= k < n && Ends(env, s.filings[k]) && !s.filings[k].late;
      assert Ends(env, t.filings[k]);
    }
  }

  // ---- The bounds ----

  function LateWorker(f: Filing): seq<nat> {
    if RecordedLate(f) then [f.worker] else []
  }

  /** The recorders of late hits, one entry for each such hit. */
  function LateWorkers(filings: seq<Filing>): seq<nat> {
    Collect(LateWorker, filings)
  }

  /** After the flag rises at most workers - 1 further hits, of any kind, are recorded. */
  lemma LateHitsBounded(env: PassEnv, s: PassState)
    requires StopDiscipline(env, s) && s.localStop
    ensures |LateWorkers(s.filings)| <= |s.workers| - 1
  {
    var k :| 0 <= k < |s.filings| && Ends(env, s.filings[k]) && !s.filings[k].late;
    CollectDistinct<Filing, nat>(LateWorker, s.filings);
    forall u: nat | u in LateWorkers(s.filings) ensures u < |s.workers| && u != s.filings[k].worker {
      var i := CollectSource<Filing, nat>(LateWorker, s.filings, u);
      assert Final(env, s.filings[i]) && Final(env, s.filings[k]) && i != k;
    }
    DistinctBelow(LateWorkers(s.filings), |s.workers|, s.filings[k].worker);
  }

  function AdbOnly(h: Hit): seq<Hit> {
    if IsAdb(h.kind) then [h] else []
  }

  function AdbHits(hits: seq<Hit>): seq<Hit> {
    Collect(AdbOnly, hits)
  }

  function EndWorker(env: PassEnv): Filing -> seq<nat> {
    f => if Ends(env, f) then [f.worker] else []
  }

  lemma {:induction false} AdbHitsCounted(env: PassEnv, filings: seq<Filing>)
    requires env.Valid() && env.cfg.stopOnFirst
    requires forall f :: f in filings ==> f.idx < |env.work|
    ensures |AdbHits(HitsOf(env, filings))| == |Collect(EndWorker(env), filings)|
  {
    if filings != [] {
      var n := |filings| - 1;
      AdbHitsCounted(env, filings[..n]);
      var more := if filings[n].fate.Recorded? then [env.HitAt(filings[n].idx)] else [];
      CollectConcat(AdbOnly, HitsOf(env, filings[..n]), more);
      assert more != [] ==> more[..0] == [];
    }
  }

  /** The workers that recorded a scan-ending hit are distinct. */
  lemma EndWorkersBounded(env: PassEnv, s: PassState)
    requires Finality(env, s)
    ensures |Collect(EndWorker(env), s.filings)| <= |s.workers|
  {
    hide Ends, RecordedLate;
    var pick := EndWorker(env);
    assert forall i :: 0 <= i < |s.filings| && pick(s.filings[i]) != [] ==> Final(env, s.filings[i]);
    CollectDistinct<Filing, nat>(pick, s.filings);
    forall u: nat | u in Collect(pick, s.filings) ensures u < |s.workers| {
      var i := CollectSource<Filing, nat>(pick, s.filings, u);
    }
    DistinctBounded<nat>(Collect(pick, s.filings), Below(|s.workers|));
  }

  /** With stop-on-first each worker records at most one ADB hit in a pass. */
  lemma AdbHitsBounded(env: PassEnv, s: PassState)
    requires env.Valid() && env.cfg.stopOnFirst
    requires StopDiscipline(env, s)
    requires forall f :: f in s.filings ==> f.idx < |env.work|
    ensures |AdbHits(HitsOf(env, s.filings))| <= |s.workers|
  {
    hide Finality, Raisers, AdbHits, HitsOf;
    AdbHitsCounted(env, s.filings);
    EndWorkersBounded(env, s);
  }
}
