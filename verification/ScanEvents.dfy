/** The event stream of a pass agrees with its results, step by step. */
module ScanEvents {
  import opened Net
  import opened ScanMachine

  /** The hit that a worker has announced but not recorded yet. */
  function Announced(env: PassEnv, pc: Pc): Option<Hit>
    requires env.Valid()
  {
    if pc.PushHit? && pc.idx < |env.work| then Some(env.HitAt(pc.idx)) else None
  }

  function AllAnnounced(env: PassEnv, workers: seq<Pc>): (r: seq<Option<Hit>>)
    requires env.Valid()
    ensures |r| == |workers| && forall w :: 0 <= w < |workers| ==> r[w] == Announced(env, workers[w])
  {
    seq(|workers|, w requires 0 <= w < |workers| => Announced(env, workers[w]))
  }

  /** PortHit events are the recorded hits plus those between announcement and recording. */
  ghost predicate HitHeard(env: PassEnv, s: PassState, h: Hit)
    requires env.Valid()
  {
    multiset(s.events)[PortHit(h)] + multiset(env.hits0)[h]
    == multiset(s.hits)[h] + multiset(AllAnnounced(env, s.workers))[Some(h)]
  }

  ghost predicate HitsHeard(env: PassEnv, s: PassState)
    requires env.Valid()
  {
    forall h: Hit :: HitHeard(env, s, h)
  }

  predicate Milestone(done: nat, scanned: nat) {
    done % PROGRESS_EVERY == 0 && 0 < done <= scanned
  }

  /** A multiple of 5000 reached so far is reported once, or about to be; nothing else is. */
  ghost predicate MilestoneHeard(env: PassEnv, s: PassState, d: nat) {
    multiset(s.events)[Progress(env.pass, d, |env.work|)] + multiset(s.workers)[EmitProgress(d)]
    == if Milestone(d, s.scanned) then 1 else 0
  }

  ghost predicate ProgressHeard(env: PassEnv, s: PassState) {
    forall d: nat :: MilestoneHeard(env, s, d)
  }

  /** Only this pass's own kinds of event appear, and the thread notice at most once, when due. */
  ghost predicate OwnEvents(env: PassEnv, s: PassState) {
    && (forall e :: e in s.events ==>
          e.PortHit? || (e.Progress? && e.pass == env.pass && e.total == |env.work|)
          || (e.ThreadsSpawned? && s.spawner.Joining?
              && e == ThreadsSpawned(env.pass, env.cfg.threads, |s.workers|)))
    && (s.spawner.Joining? ==>
          multiset(s.events)[ThreadsSpawned(env.pass, env.cfg.threads, |s.workers|)]
          == if |s.workers| != env.cfg.threads then 1 else 0)
  }

  ghost predicate EventsAgree(env: PassEnv, s: PassState)
    requires env.Valid()
  {
    HitsHeard(env, s) && ProgressHeard(env, s) && OwnEvents(env, s)
  }

  /** How a worker's next operation fits the event stream. */
  predicate Audible(env: PassEnv, pc: Pc, e: Effect)
    requires env.Valid()
  {
    match e
    case Log(PortHit(h), to) =>
      && pc.EmitHit? && to == PushHit(pc.idx) && pc.idx < |env.work| && h == env.HitAt(pc.idx)
    case Log(event, to) =>
      && pc.EmitProgress? && event == Progress(env.pass, pc.done, |env.work|) && to.LoadStop?
    case Dispose(i, fate, to) =>
      && i < |env.work| && (if fate.Recorded? then pc == PushHit(i) else !pc.PushHit?)
      && !pc.EmitProgress? && !to.PushHit? && !to.EmitProgress?
    case Goto(to) => !pc.PushHit? && !pc.EmitProgress? && !to.PushHit? && !to.EmitProgress?
    case RaiseFlag(to) => pc.RaiseStop? && to.CountScanned?
    case ClaimNext => pc.Claim?
    case CountOne => pc.CountScanned?
  }

  lemma ReactAudible(env: PassEnv, s: PassState, pc: Pc)
    requires env.Valid() && InRange(env, pc)
    ensures Audible(env, pc, React(env, s, pc))
  {
  }

  lemma EventsAgreeInit(env: PassEnv, stop: bool, cancel: bool)
    requires env.Valid()
    ensures EventsAgree(env, Init(env, stop, cancel))
  {
  }

  lemma EventsAgreeNext(env: PassEnv, s: PassState, a: Action)
    requires env.Valid() && EventsAgree(env, s) && Enabled(env, s, a)
    ensures EventsAgree(env, Next(env, s, a))
  {
    if a.Step? {
      var e := React(env, s, s.workers[a.worker]);
      ReactAudible(env, s, s.workers[a.worker]);
      HitsHeardApply(env, s, a.worker, e);
      ProgressHeardApply(env, s, a.worker, e);
      OwnEventsApply(env, s, a.worker, e);
    } else {
      EventsAgreeSpawner(env, s, a);
    }
  }

  lemma EventsAgreeSpawner(env: PassEnv, s: PassState, a: Action)
    requires env.Valid() && EventsAgree(env, s) && Enabled(env, s, a) && !a.Step?
    ensures EventsAgree(env, Next(env, s, a))
  {
    var t := Next(env, s, a);
    if a.Spawn? {
      assert AllAnnounced(env, t.workers) == AllAnnounced(env, s.workers) + [None];
    } else {
      assert t.workers == s.workers;
    }
    forall h: Hit ensures HitHeard(env, t, h) {
      assert HitHeard(env, s, h);
    }
    forall d: nat ensures MilestoneHeard(env, t, d) {
      assert MilestoneHeard(env, s, d);
    }
  }

  lemma AnnouncedUpdate(env: PassEnv, workers: seq<Pc>, w: nat, pc: Pc, h: Hit)
    requires env.Valid() && w < |workers|
    ensures multiset(AllAnnounced(env, workers[w := pc]))[Some(h)]
              + (if Announced(env, workers[w]) == Some(h) then 1 else 0)
         == multiset(AllAnnounced(env, workers))[Some(h)]
              + (if Announced(env, pc) == Some(h) then 1 else 0)
  {
    assert AllAnnounced(env, workers[w := pc]) == AllAnnounced(env, workers)[w := Announced(env, pc)];
  }

  lemma HitsHeardApply(env: PassEnv, s: PassState, w: nat, e: Effect)
    requires env.Valid() && HitsHeard(env, s) && w < |s.workers| && Audible(env, s.workers[w], e)
    ensures HitsHeard(env, Apply(env, s, w, e))
  {
    forall h: Hit ensures HitHeard(env, Apply(env, s, w, e), h) {
      HitHeardApply(env, s, w, e, h);
    }
  }

  lemma HitHeardApply(env: PassEnv, s: PassState, w: nat, e: Effect, h: Hit)
    requires env.Valid() && HitHeard(env, s, h) && w < |s.workers| && Audible(env, s.workers[w], e)
    ensures HitHeard(env, Apply(env, s, w, e), h)
  {
    if e.Dispose? {
      HitHeardDispose(env, s, w, e, h);
    } else {
      HitHeardMove(env, s, w, e, h);
    }
  }

  lemma HitHeardMove(env: PassEnv, s: PassState, w: nat, e: Effect, h: Hit)
    requires env.Valid() && HitHeard(env, s, h) && w < |s.workers| && Audible(env, s.workers[w], e)
    requires !e.Dispose?
    ensures HitHeard(env, Apply(env, s, w, e), h)
  {
    hide PassEnv.HitAt, HitHeard;
    if e.Log? {
      HitHeardLog(env, s, w, e, h);
    } else {
      var t := Apply(env, s, w, e);
      assert t.workers == s.workers[w := t.workers[w]];
      HitKept(env, s, t, w, h);
    }
  }

  /** Where nothing is logged or recorded and nobody announces, nothing changes. */
  lemma HitKept(env: PassEnv, s: PassState, t: PassState, w: nat, h: Hit)
    requires env.Valid() && HitHeard(env, s, h)
    requires w < |s.workers| == |t.workers| && t.workers == s.workers[w := t.workers[w]]
    requires !s.workers[w].PushHit? && !t.workers[w].PushHit?
    requires t.events == s.events && t.hits == s.hits
    ensures HitHeard(env, t, h)
  {
    AnnouncedUpdate(env, s.workers, w, t.workers[w], h);
  }

  lemma HitHeardLog(env: PassEnv, s: PassState, w: nat, e: Effect, h: Hit)
    requires env.Valid() && HitHeard(env, s, h) && w < |s.workers| && Audible(env, s.workers[w], e)
    requires e.Log?
    ensures HitHeard(env, Apply(env, s, w, e), h)
  {
    hide PassEnv.HitAt;
    AnnouncedUpdate(env, s.workers, w, e.pc, h);
  }

  lemma HitHeardDispose(env: PassEnv, s: PassState, w: nat, e: Effect, h: Hit)
    requires env.Valid() && HitHeard(env, s, h) && w < |s.workers| && Audible(env, s.workers[w], e)
    requires e.Dispose?
    ensures HitHeard(env, Apply(env, s, w, e), h)
  {
    hide PassEnv.HitAt;
    var t := Apply(env, s, w, e);
    assert t.workers == s.workers[w := e.pc] && t.events == s.events;
    AnnouncedUpdate(env, s.workers, w, e.pc, h);
  }

  lemma ProgressHeardApply(env: PassEnv, s: PassState, w: nat, e: Effect)
    requires env.Valid() && ProgressHeard(env, s) && w < |s.workers| && Audible(env, s.workers[w], e)
    ensures ProgressHeard(env, Apply(env, s, w, e))
  {
    forall d: nat ensures MilestoneHeard(env, Apply(env, s, w, e), d) {
      MilestoneHeardApply(env, s, w, e, d);
    }
  }

  lemma MilestoneHeardApply(env: PassEnv, s: PassState, w: nat, e: Effect, d: nat)
    requires env.Valid() && MilestoneHeard(env, s, d) && w < |s.workers| && Audible(env, s.workers[w], e)
    ensures MilestoneHeard(env, Apply(env, s, w, e), d)
  {
    hide PassEnv.HitAt, MilestoneHeard;
    if e.Log? || e.CountOne? {
      MilestoneHeardCount(env, s, w, e, d);
    } else {
      var t := Apply(env, s, w, e);
      assert t.workers == s.workers[w := t.workers[w]];
      MilestoneKept(env, s, t, w, d);
    }
  }

  /** Where nothing is counted or logged and nobody is about to report, nothing changes. */
  lemma MilestoneKept(env: PassEnv, s: PassState, t: PassState, w: nat, d: nat)
    requires MilestoneHeard(env, s, d) && w < |s.workers| == |t.workers| && t.workers == s.workers[w := t.workers[w]]
    requires !s.workers[w].EmitProgress? && !t.workers[w].EmitProgress?
    requires t.events == s.events && t.scanned == s.scanned
    ensures MilestoneHeard(env, t, d)
  {
  }

  lemma MilestoneHeardCount(env: PassEnv, s: PassState, w: nat, e: Effect, d: nat)
    requires env.Valid() && MilestoneHeard(env, s, d) && w < |s.workers| && Audible(env, s.workers[w], e)
    requires e.Log? || e.CountOne?
    ensures MilestoneHeard(env, Apply(env, s, w, e), d)
  {
    hide PassEnv.HitAt;
    var t := Apply(env, s, w, e);
    assert t.workers == s.workers[w := t.workers[w]];
  }

  lemma OwnEventsApply(env: PassEnv, s: PassState, w: nat, e: Effect)
    requires env.Valid() && OwnEvents(env, s) && w < |s.workers| && Audible(env, s.workers[w], e)
    ensures OwnEvents(env, Apply(env, s, w, e))
  {
    var t := Apply(env, s, w, e);
    assert |t.workers| == |s.workers| && t.spawner == s.spawner;
  }
}
