/** Items that would stop the scan use up their workers: whoever has claimed one either still holds it
    or is on its way out, so a pass claims at most one such item per worker. */
module ScanSpent {
  import opened Sequences
  import opened ScanMachine
  import opened ScanInvariants
  import opened ScanRuns
  import opened ScanStop
  import opened ScanEvents

  /** The item at `i`, when recorded, stops the scan. */
  predicate StopsAt(env: PassEnv, i: nat)
    requires i < |env.work|
  {
    env.Outcome(i).Accepted? && env.Stops(i)
  }

  /** How many of the first `n` items would stop the scan. */
  function StopCount(env: PassEnv, n: nat): nat
    requires n <= |env.work|
  {
    if n == 0 then 0 else StopCount(env, n - 1) + if StopsAt(env, n - 1) then 1 else 0
  }

  lemma {:induction false} StopCountMonotone(env: PassEnv, m: nat, n: nat)
    requires m <= n <= |env.work|
    ensures StopCount(env, m) <= StopCount(env, n) <= StopCount(env, m) + (n - m)
    decreases n
  {
    if m < n {
      StopCountMonotone(env, m, n - 1);
    }
  }

  // ---- Workers used up ----

  /** A worker that has let go of a stopping item: it raises the flag, or leaves. */
  predicate Leaving(stop: bool, cancel: bool, pc: Pc) {
    pc.RaiseStop?
    || ((stop || cancel)
        && (pc.CountScanned? || pc.EmitProgress? || pc.LoadStop? || pc.Exited? || (pc.LoadCancel? && cancel)))
  }

  ghost predicate SpentFiling(env: PassEnv, f: Filing) {
    f.idx < |env.work| && StopsAt(env, f.idx)
  }

  /** Every worker files at most one stopping item, and is leaving after it. */
  ghost predicate Spent(env: PassEnv, s: PassState) {
    && (forall k :: 0 <= k < |s.filings| && SpentFiling(env, s.filings[k]) ==>
          s.filings[k].worker < |s.workers| && Leaving(s.localStop, s.cancel, s.workers[s.filings[k].worker]))
    && (forall k, l :: 0 <= k < l < |s.filings| && SpentFiling(env, s.filings[k]) && SpentFiling(env, s.filings[l]) ==>
          s.filings[k].worker != s.filings[l].worker)
  }

  /** How a worker's next operation fits this. */
  predicate Leaves(env: PassEnv, s: PassState, pc: Pc, e: Effect) {
    match e
    case Goto(to) => Leaving(s.localStop, s.cancel, pc) ==> Leaving(s.localStop, s.cancel, to)
    case Log(_, to) => Leaving(s.localStop, s.cancel, pc) ==> Leaving(s.localStop, s.cancel, to)
    case Dispose(i, _, to) =>
      && i < |env.work| && !Leaving(s.localStop, s.cancel, pc)
      && (StopsAt(env, i) ==> Leaving(s.localStop, s.cancel, to))
    case RaiseFlag(to) => to.CountScanned?
    case ClaimNext => !Leaving(s.localStop, s.cancel, pc)
    case CountOne => pc.CountScanned?
  }

  lemma ReactLeaves(env: PassEnv, s: PassState, pc: Pc)
    requires env.Valid() && InRange(env, pc) && PcAgrees(env, pc)
    ensures Leaves(env, s, pc, React(env, s, pc))
  {
    hide PassEnv.HitAt, PassEnv.Kind;
  }

  lemma SpentNext(env: PassEnv, s: PassState, a: Action)
    requires env.Valid() && Contents(env, s) && Spent(env, s) && Enabled(env, s, a)
    ensures Spent(env, Next(env, s, a))
  {
    if a.Step? {
      var pc := s.workers[a.worker];
      ReactLeaves(env, s, pc);
      hide React;
      SpentApply(env, s, a.worker, React(env, s, pc));
    } else {
      var t := Next(env, s, a);
      assert t.filings == s.filings && |s.workers| <= |t.workers|;
      assert forall w :: 0 <= w < |s.workers| ==> t.workers[w] == s.workers[w];
    }
  }

  lemma SpentApply(env: PassEnv, s: PassState, w: nat, e: Effect)
    requires env.Valid() && Spent(env, s) && w < |s.workers| && Leaves(env, s, s.workers[w], e)
    ensures Spent(env, Apply(env, s, w, e))
  {
    hide PassEnv.HitAt, SpentFiling;
    var t := Apply(env, s, w, e);
    assert t.workers == s.workers[w := t.workers[w]];
    if e.Dispose? {
      assert forall k :: 0 <= k < |s.filings| ==> t.filings[k] == s.filings[k];
      DisposedFiling(env, s, w, e);
    } else {
      assert t.filings == s.filings;
    }
  }

  lemma DisposedFiling(env: PassEnv, s: PassState, w: nat, e: Effect)
    requires e.Dispose? && e.idx < |env.work|
    ensures SpentFiling(env, Filing(e.idx, e.fate, w, s.localStop)) <==> StopsAt(env, e.idx)
  {
  }

  // ---- Counting them ----

  /** Who holds or has filed the claimed index `i`. */
  ghost function Owner(s: PassState, i: nat): nat
    requires i in s.places
    requires s.places[i].Filed? ==> s.places[i].at < |s.filings|
  {
    match s.places[i]
    case Flight(w) => w
    case Filed(k) => s.filings[k].worker
  }

  /** The owners of the stopping items among the first `n`. */
  ghost function StopOwners(env: PassEnv, s: PassState, n: nat): seq<nat>
    requires Ownership(env, s) && n <= Claimed(env, s)
  {
    if n == 0 then []
    else StopOwners(env, s, n - 1) + if StopsAt(env, n - 1) then [Owner(s, n - 1)] else []
  }

  lemma OwnersDiffer(env: PassEnv, s: PassState, i: nat, j: nat)
    requires Ownership(env, s) && Spent(env, s) && i < j < Claimed(env, s)
    requires StopsAt(env, i) && StopsAt(env, j)
    ensures Owner(s, i) != Owner(s, j)
  {
    hide StopsAt;
    match (s.places[i], s.places[j])
    case (Filed(k), Filed(l)) => assert SpentFiling(env, s.filings[k]) && SpentFiling(env, s.filings[l]);
    case (Filed(k), Flight(w)) => assert SpentFiling(env, s.filings[k]);
    case (Flight(w), Filed(l)) => assert SpentFiling(env, s.filings[l]);
    case _ =>
  }

  /** An owner of a stopping item holds it or is leaving. */
  predicate UsedUp(s: PassState, w: nat) {
    w < |s.workers| && (s.workers[w].Holds() || Leaving(s.localStop, s.cancel, s.workers[w]))
  }

  lemma OwnerIsUsedUp(env: PassEnv, s: PassState, i: nat)
    requires Ownership(env, s) && Spent(env, s) && i < Claimed(env, s) && StopsAt(env, i)
    ensures UsedUp(s, Owner(s, i))
  {
    if s.places[i].Filed? {
      assert SpentFiling(env, s.filings[s.places[i].at]);
    }
  }

  lemma {:induction false} StopOwnersDistinct(env: PassEnv, s: PassState, n: nat)
    requires Ownership(env, s) && Spent(env, s) && n <= Claimed(env, s)
    ensures |StopOwners(env, s, n)| == StopCount(env, n) && Distinct(StopOwners(env, s, n))
    ensures forall w :: w in StopOwners(env, s, n) ==>
              exists i :: 0 <= i < n && StopsAt(env, i) && i in s.places && Owner(s, i) == w
  {
    hide Spent, StopsAt, Owner;
    if n > 0 {
      var front := StopOwners(env, s, n - 1);
      StopOwnersDistinct(env, s, n - 1);
      if StopsAt(env, n - 1) {
        forall w | w in front ensures w != Owner(s, n - 1) {
          var i :| 0 <= i < n - 1 && StopsAt(env, i) && i in s.places && Owner(s, i) == w;
          OwnersDiffer(env, s, i, n - 1);
        }
        DistinctAppend(front, Owner(s, n - 1));
      }
    }
  }

  /** The stopping items claimed so far number at most the workers, not counting some that own none. */
  lemma StopsBelow(env: PassEnv, s: PassState, n: nat, others: set<nat>)
    requires Ownership(env, s) && Spent(env, s) && n <= Claimed(env, s)
    requires forall w :: w in others ==> w < |s.workers|
    requires forall w, i :: w in others && 0 <= i < n && StopsAt(env, i) && i in s.places ==> Owner(s, i) != w
    ensures StopCount(env, n) + |others| <= |s.workers|
  {
    hide StopOwners;
    StopOwnersDistinct(env, s, n);
    var all := Below(|s.workers|);
    forall w | w in StopOwners(env, s, n) ensures w in all - others {
      var i :| 0 <= i < n && StopsAt(env, i) && i in s.places && Owner(s, i) == w;
      OwnerIsUsedUp(env, s, i);
    }
    DistinctBounded<nat>(StopOwners(env, s, n), all - others);
    assert others <= all;
  }

  // ---- Items in flight ----

  /** A worker that has claimed an item and not counted it. */
  function InHand(pc: Pc): nat {
    if pc.Holds() || Owes(pc) then 1 else 0
  }

  /** Claimed items are counted or in some worker's hand. */
  ghost predicate InFlight(env: PassEnv, s: PassState) {
    s.scanned + Sum(InHand, s.workers) == Claimed(env, s)
  }

  lemma InFlightNext(env: PassEnv, s: PassState, a: Action)
    requires env.Valid() && InFlight(env, s) && Enabled(env, s, a)
    ensures InFlight(env, Next(env, s, a))
  {
    hide Sum;
    if a.Step? {
      ReactCareful(env, s, s.workers[a.worker]);
      ReactTallied(env, s, s.workers[a.worker]);
      hide React;
      InFlightApply(env, s, a.worker, React(env, s, s.workers[a.worker]));
    } else if a.Spawn? {
      SumAppend(InHand, s.workers, LoadStop);
    }
  }

  lemma InFlightApply(env: PassEnv, s: PassState, w: nat, e: Effect)
    requires env.Valid() && InFlight(env, s) && w < |s.workers|
    requires Careful(env, s.workers[w], e) && Tallied(s, s.workers[w], e)
    ensures InFlight(env, Apply(env, s, w, e))
  {
    hide Sum, PassEnv.HitAt;
    var t := Apply(env, s, w, e);
    assert t.workers == s.workers[w := t.workers[w]];
    SumUpdate(InHand, s.workers, w, t.workers[w]);
  }

  lemma {:induction false} SpentInRuns(
    env: PassEnv, cancel: bool, schedule: seq<Action>, states: seq<PassState>, k: nat)
    requires env.Valid() && IsRun(env, false, cancel, schedule, states) && k < |states|
    ensures Spent(env, states[k]) && InFlight(env, states[k])
  {
    hide Next, Enabled, Spent, InFlight, Contents, Ownership, StopJustified, Counters;
    if k > 0 {
      SpentInRuns(env, cancel, schedule, states, k - 1);
      EveryStateIsGood(env, cancel, schedule, states, k - 1);
      hide StopDiscipline, EventsAgree;
      SpentNext(env, states[k - 1], schedule[k - 1]);
      InFlightNext(env, states[k - 1], schedule[k - 1]);
    } else {
      SpentInit(env, cancel);
    }
  }

  lemma SpentInit(env: PassEnv, cancel: bool)
    ensures Spent(env, Init(env, false, cancel)) && InFlight(env, Init(env, false, cancel))
  {
  }
}
