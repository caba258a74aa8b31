/** The progress that the window shows. */
module UiProgress {
  import opened Net
  import opened Sequences
  import opened HitOrder
  import opened TwoPassScan
  import opened ScanProgress
  import opened UiProtocol
  import opened UiScan
  import Scan = ScanMachine

  // ---- What is shown ----

  /** The counts of the last progress event. */
  function LastProgress(events: seq<Scan.ScanEvent>): Option<(nat, nat)> {
    if events == [] then None
    else
      var e := events[|events| - 1];
      if e.Progress? then Some((e.done, e.total)) else LastProgress(events[..|events| - 1])
  }

  /** While a scan runs, the window shows the last progress event it has handled for it, of whichever
      pass. */
  ghost predicate ShowsLast(u: Ui) {
    u.status.PortBusy? ==> u.scans > 0 && u.progress == LastProgress(Heard(u.handled, u.scans - 1))
  }

  lemma HeardAppend(msgs: seq<Msg>, m: Msg, job: nat)
    ensures Heard(msgs + [m], job) == Heard(msgs, job) + EventOf(job)(m)
  {
    assert (msgs + [m])[..|msgs|] == msgs;
  }

  lemma ShowsLastNext(u: Ui, e: Event)
    requires UiInv(u) && ShowsLast(u)
    ensures ShowsLast(Next(u, e))
  {
    hide Signals, Heard;
    match e
    case HandleNext =>
      if u.queue != [] {
        ShowsLastHandled(u);
      }
    case StartScan(_) =>
      forall m | m in u.handled && m.ScanEvt? ensures m.job != u.scans {
      }
      NothingHeard(u.handled, u.scans);
    case _ =>
  }

  lemma ShowsLastHandled(u: Ui)
    requires UiInv(u) && ShowsLast(u) && u.queue != []
    ensures ShowsLast(Handle(u))
  {
    hide Signals, Heard;
    var m := u.queue[0];
    if !m.Toast? {
      NextSignal(u);
    }
    hide InStep, HandledInOrder;
    if u.status.PortBusy? {
      var heard := Heard(u.handled, u.scans - 1);
      HeardAppend(u.handled, m, u.scans - 1);
      if m.ScanEvt? {
        assert (heard + [m.event])[..|heard|] == heard;
      } else {
        assert heard + [] == heard;
      }
    }
  }

  lemma {:induction false} EveryStateShowsLast(events: seq<Event>, states: seq<Ui>, k: nat)
    requires IsHistory(events, states) && k < |states|
    ensures ShowsLast(states[k])
  {
    hide Next, ShowsLast, UiInv;
    if k > 0 {
      EveryStateShowsLast(events, states, k - 1);
      EveryUiStateIsSound(events, states, k - 1);
      ShowsLastNext(states[k - 1], events[k - 1]);
    } else {
      OpenedShowsLast();
    }
  }

  lemma OpenedShowsLast()
    ensures ShowsLast(Opened())
  {
  }

  // ---- A shown count that falls back ----

  /** Both windows show the progress of one scan, the second one less of it. */
  predicate Falls(u: Ui, v: Ui) {
    u.scans == v.scans && u.progress.Some? && v.progress.Some? && v.progress.value.0 < u.progress.value.0
  }

  /** A history of the window, with scans of one configuration behind it, in which the count falls. */
  ghost predicate ShownFalling(
    cfg: Scan.ScanCfg, outputs: nat -> Output, events: seq<Event>, states: seq<Ui>, k: nat, l: nat)
  {
    && (forall job: nat :: ProducedBy(cfg, outputs(job)))
    && IsFedHistory(outputs, events, states) && k < l < |states| && Falls(states[k], states[l])
  }

  lemma {:induction false} LastProgressSource(events: seq<Scan.ScanEvent>) returns (i: nat)
    requires LastProgress(events).Some?
    ensures i < |events| && events[i].Progress? && events[i].done == LastProgress(events).value.0
  {
    i := |events| - 1;
    if !events[i].Progress? {
      i := LastProgressSource(events[..i]);
    }
  }

  /** A progress that is shown comes from the log of the running scan. */
  lemma ShownIsLogged(outputs: nat -> Output, events: seq<Event>, states: seq<Ui>, k: nat) returns (e: Scan.ScanEvent)
    requires IsFedHistory(outputs, events, states) && k < |states| && states[k].progress.Some?
    ensures states[k].status.PortBusy? && states[k].scans > 0
    ensures e in outputs(states[k].scans - 1).log && e.Progress? && e.done == states[k].progress.value.0
  {
    hide Heard, Next, LastProgress, Signals;
    var u := states[k];
    EveryUiStateIsSound(events, states, k);
    EveryStateIsFed(outputs, events, states, k);
    EveryStateShowsLast(events, states, k);
    HeardConcat(u.handled, u.queue, u.scans - 1);
    var heard, log := Heard(u.handled, u.scans - 1), outputs(u.scans - 1).log;
    assert heard <= Sent(u, u.scans - 1) <= log;
    var i := LastProgressSource(heard);
    assert heard[i] == log[i];
    e := heard[i];
  }

  lemma ShortOutputReports(cfg: Scan.ScanCfg, output: Output, e: Scan.ScanEvent)
    requires ProducedBy(cfg, output) && |WorkList(cfg)| < 2 * Scan.PROGRESS_EVERY
    requires e in output.log && e.Progress?
    ensures e.done == Scan.PROGRESS_EVERY
  {
    hide IsScan, ScanLog, WorkList;
    var net, scan :| OutputOf(cfg, net, scan, output);
    ScansAreSound(cfg, net, scan);
    ShortScanReports(cfg, net, scan, e);
  }

  // ---- Playing a log to the window ----

  /** The window has handled the first `n` events of its first scan, and nothing waits. */
  ghost predicate Played(outputs: nat -> Output, u: Ui, n: nat) {
    && u.scans == 1 && u.status.PortBusy? && u.job == ScanRunning(0) && u.queue == []
    && n <= |outputs(0).log| && Heard(u.handled, 0) == outputs(0).log[..n]
  }

  lemma Begin(outputs: nat -> Output) returns (events: seq<Event>, states: seq<Ui>)
    ensures IsFedHistory(outputs, events, states) && |events| == 3 && Played(outputs, states[3], 0)
  {
    var u0 := Opened();
    var u1 := Next(u0, MdnsReports([]));
    var u2 := Next(u1, HandleNext);
    var u3 := Next(u2, StartScan(Ok([])));
    events, states := [MdnsReports([]), HandleNext, StartScan(Ok([]))], [u0, u1, u2, u3];
    NothingHeard(u3.handled, 0);
    assert outputs(0).log[..0] == [];
  }

  /** One more event is sent and handled. */
  lemma PlayOne(outputs: nat -> Output, u: Ui, n: nat)
    requires Played(outputs, u, n) && n < |outputs(0).log|
    ensures var e := outputs(0).log[n];
            var v := Next(u, ScanReports(e));
            && Feeds(outputs, u, ScanReports(e)) && Feeds(outputs, v, HandleNext)
            && Played(outputs, Next(v, HandleNext), n + 1)
  {
    hide Heard;
    var log := outputs(0).log;
    assert u.handled + u.queue == u.handled;
    assert log[..n] + [log[n]] == log[..n + 1];
    HeardAppend(u.handled, ScanEvt(0, log[n]), 0);
    assert [ScanEvt(0, log[n])][1..] == [];
  }

  /** The history that plays the first `n` events: after each of them there is a moment at which just
      that many are handled. */
  lemma {:induction false} Play(outputs: nat -> Output, n: nat) returns (events: seq<Event>, states: seq<Ui>)
    requires n <= |outputs(0).log|
    ensures IsFedHistory(outputs, events, states) && |events| == 3 + 2 * n
    ensures forall m :: 0 <= m <= n ==> Played(outputs, states[3 + 2 * m], m)
  {
    hide Played, Feeds, Next;
    if n == 0 {
      events, states := Begin(outputs);
    } else {
      events, states := Play(outputs, n - 1);
      var u, e := states[|events|], ScanReports(outputs(0).log[n - 1]);
      assert Played(outputs, states[3 + 2 * (n - 1)], n - 1);
      PlayOne(outputs, u, n - 1);
      HistoryExtends(outputs, events, states, e);
      HistoryExtends(outputs, events + [e], states + [Next(u, e)], HandleNext);
      var states' := states + [Next(u, e)] + [Next(Next(u, e), HandleNext)];
      forall m | 0 <= m <= n ensures Played(outputs, states'[3 + 2 * m], m) {
        if m < n {
          assert states'[3 + 2 * m] == states[3 + 2 * m];
        }
      }
      events, states := events + [e] + [HandleNext], states';
    }
  }

  lemma LastOf(events: seq<Scan.ScanEvent>, n: nat)
    requires n < |events| && events[n].Progress?
    ensures LastProgress(events[..n + 1]) == Some((events[n].done, events[n].total))
  {
    assert events[..n + 1][n] == events[n];
  }

  /** A log that falls back makes the shown count fall. */
  lemma FallIsShown(outputs: nat -> Output) returns (events: seq<Event>, states: seq<Ui>, k: nat, l: nat)
    requires FallsBack(outputs(0).log)
    ensures IsFedHistory(outputs, events, states) && k < l < |states| && Falls(states[k], states[l])
  {
    hide Heard, LastProgress;
    var log := outputs(0).log;
    var i, j :| 0 <= i < j < |log| && log[i].Progress? && log[j].Progress? && log[j].done < log[i].done;
    events, states := Play(outputs, |log|);
    k, l := 3 + 2 * (i + 1), 3 + 2 * (j + 1);
    assert Played(outputs, states[k], i + 1) && Played(outputs, states[l], j + 1);
    EveryStateShowsLast(events, states, k);
    EveryStateShowsLast(events, states, l);
    LastOf(log, i);
    LastOf(log, j);
  }

  lemma FallNeedsItems(
    cfg: Scan.ScanCfg, outputs: nat -> Output, events: seq<Event>, states: seq<Ui>, k: nat, l: nat)
    requires ShownFalling(cfg, outputs, events, states, k, l)
    ensures |WorkList(cfg)| >= 2 * Scan.PROGRESS_EVERY
  {
    hide ProducedBy, WorkList, IsFedHistory;
    if |WorkList(cfg)| < 2 * Scan.PROGRESS_EVERY {
      var d := ShownIsLogged(outputs, events, states, k);
      var e := ShownIsLogged(outputs, events, states, l);
      ShortOutputReports(cfg, outputs(states[k].scans - 1), d);
      ShortOutputReports(cfg, outputs(states[k].scans - 1), e);
      assert false;
    }
  }

  /** For a given configuration: the count that the window shows for one scan can fall exactly if the
      scan has 10000 items, however many threads it has. */
  lemma ShownProgressFallsBack(cfg: Scan.ScanCfg)
    ensures (exists outputs, events, states, k, l :: ShownFalling(cfg, outputs, events, states, k, l))
        <==> |cfg.targets| * |cfg.ports| >= 10_000
  {
    hide ShownFalling, WorkList, IsScan, ScanLog, FallsBack;
    WorkListSize(cfg);
    if |WorkList(cfg)| >= 2 * Scan.PROGRESS_EVERY {
      var scan := SlowScanFallsBack(cfg);
      var output := Output(ScanLog(cfg, scan), StableSort(HitLeq, scan.Last().hits));
      assert OutputOf(cfg, SlowNetwork(), scan, output);
      var outputs := (_: nat) => output;
      var events, states, k, l := FallIsShown(outputs);
      assert ShownFalling(cfg, outputs, events, states, k, l) by { ShownFallingIntro(cfg, outputs, events, states, k, l); }
    }
    forall outputs, events, states, k, l | ShownFalling(cfg, outputs, events, states, k, l)
      ensures |WorkList(cfg)| >= 2 * Scan.PROGRESS_EVERY
    {
      FallNeedsItems(cfg, outputs, events, states, k, l);
    }
  }

  lemma ShownFallingIntro(
    cfg: Scan.ScanCfg, outputs: nat -> Output, events: seq<Event>, states: seq<Ui>, k: nat, l: nat)
    requires forall job: nat :: ProducedBy(cfg, outputs(job))
    requires IsFedHistory(outputs, events, states) && k < l < |states| && Falls(states[k], states[l])
    ensures ShownFalling(cfg, outputs, events, states, k, l)
  {
  }
}
