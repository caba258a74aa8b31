/** What every step of every schedule keeps. */
module ScanInvariants {
  import opened Sequences
  import opened ScanMachine

  function Claimed(env: PassEnv, s: PassState): nat {
    if s.next < |env.work| then s.next else |env.work|
  }

  /** Each claimed index is either in flight with one worker or filed once, and nothing else is. */
  ghost predicate Ownership(env: PassEnv, s: PassState) {
    && (forall i :: i in s.places <==> 0 <= i < Claimed(env, s))
    && (forall i :: i in s.places ==>
          match s.places[i]
          case Flight(w) => w < |s.workers| && s.workers[w].Holds() && s.workers[w].idx == i
          case Filed(k) => k < |s.filings| && s.filings[k].idx == i)
    && (forall w :: 0 <= w < |s.workers| && s.workers[w].Holds() ==>
          s.workers[w].idx in s.places && s.places[s.workers[w].idx] == Flight(w))
    && (forall k :: 0 <= k < |s.filings| ==>
          s.filings[k].idx in s.places && s.places[s.filings[k].idx] == Filed(k))
  }

  function HitsOf(env: PassEnv, filings: seq<Filing>): seq<Hit>
    requires env.Valid() && forall f :: f in filings ==> f.idx < |env.work|
  {
    if filings == [] then []
    else
      var n := |filings| - 1;
      HitsOf(env, filings[..n]) + if filings[n].fate.Recorded? then [env.HitAt(filings[n].idx)] else []
  }

  function PendingOf(env: PassEnv, filings: seq<Filing>): seq<Work>
    requires forall f :: f in filings ==> f.idx < |env.work|
  {
    if filings == [] then []
    else
      var n := |filings| - 1;
      PendingOf(env, filings[..n]) + if filings[n].fate.Pending? then [env.work[filings[n].idx]] else []
  }

  /** The outcome that a program counter or a fate presupposes. */
  predicate PcAgrees(env: PassEnv, pc: Pc)
    requires InRange(env, pc)
  {
    pc.Holds() && !pc.Connect? ==>
      if pc.PushPending? then env.Outcome(pc.idx).TimedOut? && env.pass == 1
      else env.Outcome(pc.idx).Accepted?
  }

  predicate FateAgrees(env: PassEnv, f: Filing, stopped: bool)
    requires f.idx < |env.work|
  {
    match f.fate
    case Closed => env.Outcome(f.idx).Refused?
    case Pending => env.Outcome(f.idx).TimedOut? && env.pass == 1
    case Dropped => env.Outcome(f.idx).TimedOut? && env.pass != 1
    case Recorded => env.Outcome(f.idx).Accepted?
    case Suppressed => env.Outcome(f.idx).Accepted? && stopped
  }

  /** The shared vectors hold exactly what was filed, and every filing agrees with the network. */
  ghost predicate Contents(env: PassEnv, s: PassState)
    requires env.Valid()
  {
    && (forall w :: 0 <= w < |s.workers| ==> InRange(env, s.workers[w]) && PcAgrees(env, s.workers[w]))
    && (forall f :: f in s.filings ==> f.idx < |env.work| && FateAgrees(env, f, s.localStop || s.cancel))
    && s.hits == env.hits0 + HitsOf(env, s.filings)
    && s.pending == PendingOf(env, s.filings)
  }

  /** The stop flag is only ever raised behind a recorded ADB hit. */
  ghost predicate StopJustified(env: PassEnv, s: PassState) {
    && (s.localStop ==> env.cfg.stopOnFirst && HasAdb(s.hits))
    && (forall w :: 0 <= w < |s.workers| && s.workers[w].RaiseStop? ==> env.cfg.stopOnFirst && HasAdb(s.hits))
  }

  /** Counters: over-claims belong to departed workers, a worker departs only with a reason, and
      `scanned` lags the filings by exactly the workers that have filed but not counted. */
  ghost predicate Counters(env: PassEnv, s: PassState) {
    && |s.workers| <= env.Threads()
    && s.next <= |env.work| + multiset(s.workers)[Exited]
    && (Exited in s.workers ==> s.next >= |env.work| || s.localStop || s.cancel)
    && s.scanned + Uncounted(s.workers) == |s.filings|
  }

  predicate Owes(pc: Pc) {
    pc.RaiseStop? || pc.CountScanned?
  }

  function Debt(pc: Pc): nat {
    if Owes(pc) then 1 else 0
  }

  function Uncounted(workers: seq<Pc>): nat {
    Sum(Debt, workers)
  }

  ghost predicate Inv(env: PassEnv, s: PassState)
    requires env.Valid()
  {
    Ownership(env, s) && Contents(env, s) && StopJustified(env, s) && Counters(env, s)
  }

  lemma InvInit(env: PassEnv, cancel: bool)
    requires env.Valid()
    ensures Inv(env, Init(env, false, cancel))
  {
  }

  /** A worker keeps what it holds until it disposes of it, and disposes only of what it holds. */
  predicate Careful(env: PassEnv, pc: Pc, e: Effect) {
    match e
    case Goto(to) => to.Holds() == pc.Holds() && (to.Holds() ==> to.idx == pc.idx)
    case Log(_, to) => to.Holds() == pc.Holds() && (to.Holds() ==> to.idx == pc.idx)
    case Dispose(i, _, to) => pc.Holds() && i == pc.idx && !to.Holds() && i < |env.work|
    case RaiseFlag(to) => !pc.Holds() && !to.Holds()
    case ClaimNext => !pc.Holds()
    case CountOne => !pc.Holds()
  }

  lemma ReactCareful(env: PassEnv, s: PassState, pc: Pc)
    requires env.Valid() && InRange(env, pc)
    ensures Careful(env, pc, React(env, s, pc))
  {
  }

  lemma OwnershipNext(env: PassEnv, s: PassState, a: Action)
    requires env.Valid() && Ownership(env, s) && Enabled(env, s, a)
    ensures Ownership(env, Next(env, s, a))
  {
    if a.Step? {
      ReactCareful(env, s, s.workers[a.worker]);
      OwnershipApply(env, s, a.worker, React(env, s, s.workers[a.worker]));
    }
  }

  lemma OwnershipApply(env: PassEnv, s: PassState, w: nat, e: Effect)
    requires env.Valid() && Ownership(env, s) && w < |s.workers| && Careful(env, s.workers[w], e)
    ensures Ownership(env, Apply(env, s, w, e))
  {
    if e.Dispose? {
      OwnershipDispose(env, s, w, e);
    } else if e.ClaimNext? && s.next < |env.work| {
      OwnershipClaim(env, s, w);
    }
  }

  lemma OwnershipDispose(env: PassEnv, s: PassState, w: nat, e: Effect)
    requires env.Valid() && Ownership(env, s) && w < |s.workers| && Careful(env, s.workers[w], e)
    requires e.Dispose?
    ensures Ownership(env, Apply(env, s, w, e))
  {
  }

  lemma OwnershipClaim(env: PassEnv, s: PassState, w: nat)
    requires env.Valid() && Ownership(env, s) && w < |s.workers| && !s.workers[w].Holds()
    requires s.next < |env.work|
    ensures Ownership(env, Apply(env, s, w, ClaimNext))
  {
    assert s.next !in s.places;
  }

  lemma ContentsNext(env: PassEnv, s: PassState, a: Action)
    requires env.Valid() && Contents(env, s) && Enabled(env, s, a)
    ensures Contents(env, Next(env, s, a))
  {
    if a.Step? {
      var pc := s.workers[a.worker];
      ReactAgrees(env, s, pc);
      ContentsApply(env, s, a.worker, React(env, s, pc));
    }
  }

  /** The step agrees with the network: the new counter, and the disposal if there is one. */
  predicate EffectAgrees(env: PassEnv, e: Effect, stopped: bool) {
    match e
    case ClaimNext => true
    case CountOne => true
    case Dispose(i, fate, to) =>
      i < |env.work| && FateAgrees(env, Filing(i, fate, 0, false), stopped) && !to.Holds()
    case _ => InRange(env, e.pc) && PcAgrees(env, e.pc)
  }

  lemma ReactAgrees(env: PassEnv, s: PassState, pc: Pc)
    requires env.Valid() && InRange(env, pc) && PcAgrees(env, pc)
    ensures EffectAgrees(env, React(env, s, pc), s.localStop || s.cancel)
  {
  }

  lemma ContentsApply(env: PassEnv, s: PassState, w: nat, e: Effect)
    requires env.Valid() && Contents(env, s) && w < |s.workers|
    requires EffectAgrees(env, e, s.localStop || s.cancel)
    ensures Contents(env, Apply(env, s, w, e))
  {
    hide PassEnv.HitAt, PassEnv.Outcome, HitsOf, PendingOf;
    if e.Dispose? {
      ContentsDispose(env, s, w, e);
    }
  }

  lemma ContentsDispose(env: PassEnv, s: PassState, w: nat, e: Effect)
    requires env.Valid() && Contents(env, s) && w < |s.workers|
    requires e.Dispose? && EffectAgrees(env, e, s.localStop || s.cancel)
    ensures Contents(env, Apply(env, s, w, e))
  {
    hide PassEnv.HitAt, PassEnv.Outcome;
    FilingAdded(env, s.filings, Filing(e.idx, e.fate, w, s.localStop));
    hide HitsOf, PendingOf;
  }

  lemma FilingAdded(env: PassEnv, filings: seq<Filing>, f: Filing)
    requires env.Valid() && f.idx < |env.work| && forall g :: g in filings ==> g.idx < |env.work|
    ensures HitsOf(env, filings + [f]) == HitsOf(env, filings) + if f.fate.Recorded? then [env.HitAt(f.idx)] else []
    ensures PendingOf(env, filings + [f]) == PendingOf(env, filings) + if f.fate.Pending? then [env.work[f.idx]] else []
  {
    assert (filings + [f])[..|filings|] == filings;
  }

  lemma StopJustifiedNext(env: PassEnv, s: PassState, a: Action)
    requires env.Valid() && StopJustified(env, s) && Enabled(env, s, a)
    ensures StopJustified(env, Next(env, s, a))
  {
  }

  lemma CountersNext(env: PassEnv, s: PassState, a: Action)
    requires env.Valid() && Counters(env, s) && Enabled(env, s, a)
    ensures Counters(env, Next(env, s, a))
  {
    var t := Next(env, s, a);
    if a.Step? {
      CountersStep(env, s, a.worker);
    } else if a.Spawn? {
      assert t.workers[..|t.workers| - 1] == s.workers;
    }
  }

  /** A disposal is owed to `scanned` until it is counted, and nobody leaves without a reason. */
  predicate Tallied(s: PassState, pc: Pc, e: Effect) {
    && !pc.Exited?
    && match e
       case Goto(to) => !Owes(pc) && !Owes(to) && (to.Exited? ==> s.localStop || s.cancel)
       case Log(_, to) => !Owes(pc) && !Owes(to) && !to.Exited?
       case Dispose(_, _, to) => !Owes(pc) && Owes(to)
       case RaiseFlag(to) => Owes(pc) && Owes(to)
       case ClaimNext => !Owes(pc)
       case CountOne => Owes(pc)
  }

  lemma ReactTallied(env: PassEnv, s: PassState, pc: Pc)
    requires env.Valid() && InRange(env, pc) && !pc.Exited?
    ensures Tallied(s, pc, React(env, s, pc))
  {
  }

  lemma CountersStep(env: PassEnv, s: PassState, w: nat)
    requires env.Valid() && Counters(env, s) && Enabled(env, s, Step(w))
    ensures Counters(env, Next(env, s, Step(w)))
  {
    ReactTallied(env, s, s.workers[w]);
    ReactCareful(env, s, s.workers[w]);
    var e := React(env, s, s.workers[w]);
    var t := Apply(env, s, w, e);
    SumUpdate(Debt, s.workers, w, t.workers[w]);
    CountersApply(env, s, w, e);
  }

  lemma CountersApply(env: PassEnv, s: PassState, w: nat, e: Effect)
    requires env.Valid() && Counters(env, s) && w < |s.workers|
    requires Tallied(s, s.workers[w], e) && Careful(env, s.workers[w], e)
    ensures Counters(env, Apply(env, s, w, e))
  {
    DebtApply(env, s, w, e);
    hide Sum;
    ClaimsApply(env, s, w, e);
  }

  lemma DebtApply(env: PassEnv, s: PassState, w: nat, e: Effect)
    requires env.Valid() && w < |s.workers| && s.scanned + Uncounted(s.workers) == |s.filings|
    requires Tallied(s, s.workers[w], e) && Careful(env, s.workers[w], e)
    ensures var t := Apply(env, s, w, e); t.scanned + Uncounted(t.workers) == |t.filings|
  {
    hide Sum, PassEnv.HitAt, PassEnv.Valid;
    var t := Apply(env, s, w, e);
    assert t.workers == s.workers[w := t.workers[w]];
    SumUpdate(Debt, s.workers, w, t.workers[w]);
  }

  lemma ClaimsApply(env: PassEnv, s: PassState, w: nat, e: Effect)
    requires env.Valid() && Counters(env, s) && w < |s.workers|
    requires Tallied(s, s.workers[w], e) && Careful(env, s.workers[w], e)
    ensures var t := Apply(env, s, w, e);
            && |t.workers| <= env.Threads()
            && t.next <= |env.work| + multiset(t.workers)[Exited]
            && (Exited in t.workers ==> t.next >= |env.work| || t.localStop || t.cancel)
  {
    hide Uncounted, PassEnv.HitAt, PassEnv.Valid, PassEnv.Threads;
    var t := Apply(env, s, w, e);
    var pc := t.workers[w];
    assert t.workers == s.workers[w := pc];
    ExitedUpdate(s.workers, w, pc);
  }

  lemma ExitedUpdate(workers: seq<Pc>, w: nat, pc: Pc)
    requires w < |workers| && !workers[w].Exited?
    ensures multiset(workers[w := pc])[Exited] == multiset(workers)[Exited] + if pc.Exited? then 1 else 0
    ensures Exited in workers[w := pc] ==> Exited in workers || pc.Exited?
  {
  }

  lemma InvNext(env: PassEnv, s: PassState, a: Action)
    requires env.Valid() && Inv(env, s) && Enabled(env, s, a)
    ensures Inv(env, Next(env, s, a))
  {
    OwnershipNext(env, s, a);
    ContentsNext(env, s, a);
    StopJustifiedNext(env, s, a);
    CountersNext(env, s, a);
  }
}
