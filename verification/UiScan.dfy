/** The window with real scans behind it: each scan job sends the event stream of a scan and then its
    hits, while the user, the discovery job and other threads act in any order. */
module UiScan {
  import opened Net
  import opened Sequences
  import opened HitOrder
  import opened TwoPassScan
  import opened UiProtocol
  import opened Discovery
  import Scan = ScanMachine
  import Scanner

  /** What one scan job sends: its events in order, then its hits. */
  datatype Output = Output(log: seq<Scan.ScanEvent>, hits: seq<Scan.Hit>)

  ghost predicate OutputOf(cfg: Scan.ScanCfg, net: Scan.Network, scan: TwoPassScan.Scan, output: Output) {
    && IsScan(cfg, net, scan) && output.log == ScanLog(cfg, scan)
    && output.hits == StableSort(HitLeq, scan.Last().hits)
  }

  /** The output of some scan of this configuration; one that finds nothing to do or is cancelled at
      once is silent. */
  ghost predicate ProducedBy(cfg: Scan.ScanCfg, output: Output) {
    output == Output([], []) || exists net, scan :: OutputOf(cfg, net, scan, output)
  }

  ghost predicate Produced(output: Output) {
    exists cfg :: ProducedBy(cfg, output)
  }

  /** The body of a scan job. */
  method ScanJob(cfg: Scan.ScanCfg, net: Scan.Network, cancelled: bool) returns (output: Output)
    ensures ProducedBy(cfg, output)
  {
    hide IsScan, ScanLog, Scanner.Delivers;
    var scanner := new Scanner.Scanner(cfg, net, cancelled);
    var hits;
    ghost var scan;
    hits, scan := scanner.Run();
    output := Output(scanner.log, hits);
    if WorkList(cfg) != [] && !cancelled {
      assert scanner.log == [] + ScanLog(cfg, scan) == ScanLog(cfg, scan);
      assert OutputOf(cfg, net, scan, output);
    }
  }

  /** The PortHit events of a scan are its hits. */
  lemma ProducedHits(output: Output, h: Scan.Hit)
    requires Produced(output)
    ensures multiset(output.log)[Scan.PortHit(h)] == multiset(output.hits)[h]
  {
    hide IsScan, ScanLog;
    if output != Output([], []) {
      var cfg :| ProducedBy(cfg, output);
      var net, scan :| OutputOf(cfg, net, scan, output);
      ScansAreSound(cfg, net, scan);
      Scanner.SortedResult(cfg, net, scan);
    }
  }

  // ---- Feeding the window ----

  function EventOf(job: nat): Msg -> seq<Scan.ScanEvent> {
    (m: Msg) => if m.ScanEvt? && m.job == job then [m.event] else []
  }

  /** The events of one scan among some messages, in order. */
  function Heard(msgs: seq<Msg>, job: nat): seq<Scan.ScanEvent> {
    Collect(EventOf(job), msgs)
  }

  /** The events that a scan has sent so far, handled or still queued. */
  function Sent(u: Ui, job: nat): seq<Scan.ScanEvent> {
    Heard(u.handled + u.queue, job)
  }

  /** A scan job sends its log in order, and its hits when the log is through. */
  ghost predicate Feeds(outputs: nat -> Output, u: Ui, e: Event) {
    match (e, u.job)
    case (ScanReports(event), ScanRunning(j)) => Sent(u, j) + [event] <= outputs(j).log
    case (ScanEnds(result), ScanRunning(j)) => Sent(u, j) == outputs(j).log && result == outputs(j).hits
    case _ => true
  }

  ghost predicate IsFedHistory(outputs: nat -> Output, events: seq<Event>, states: seq<Ui>) {
    IsHistory(events, states) && forall k :: 0 <= k < |events| ==> Feeds(outputs, states[k], events[k])
  }

  /** A scan that has ended and been shown. */
  predicate Finished(u: Ui, job: nat) {
    job < u.scans && (job == u.scans - 1 ==> !u.status.PortBusy?)
  }

  /** Every scan sends a prefix of its log; when its end is sent all of it is sent, and finished scans
      have sent their end. */
  ghost predicate Fed(outputs: nat -> Output, u: Ui) {
    && (forall j: nat :: Sent(u, j) <= outputs(j).log)
    && (forall m :: m in u.handled + u.queue && m.ScanDone? ==>
          Sent(u, m.job) == outputs(m.job).log && m.hits == outputs(m.job).hits)
    && (forall j: nat :: Finished(u, j) ==> Sent(u, j) == outputs(j).log)
    && (forall j: nat :: u.scans <= j ==> Sent(u, j) == [])
    && (u.scans > 0 && !u.status.PortBusy? ==> u.hits == outputs(u.scans - 1).hits)
  }

  lemma SentAppend(u: Ui, m: Msg, v: Ui, job: nat)
    requires v.handled == u.handled && v.queue == u.queue + [m]
    ensures Sent(v, job) == Sent(u, job) + EventOf(job)(m)
  {
    var all := u.handled + u.queue;
    assert v.handled + v.queue == all + [m];
    assert (all + [m])[..|all|] == all;
  }

  /** No end of the running scan has been sent yet. */
  lemma EndIsToCome(u: Ui, m: Msg)
    requires UiInv(u) && u.job.ScanRunning? && m in u.handled + u.queue && m.ScanDone?
    ensures m.job != u.job.job
  {
    hide Signals;
    if m in u.queue {
      SignalsHold(u.queue, m);
      assert false;
    }
  }

  lemma FedNext(outputs: nat -> Output, u: Ui, e: Event)
    requires UiInv(u) && Fed(outputs, u) && Feeds(outputs, u, e)
    ensures Fed(outputs, Next(u, e))
  {
    match e
    case HandleNext => FedHandle(outputs, u);
    case ScanReports(event) => FedEvent(outputs, u, event);
    case ScanEnds(result) => FedEnd(outputs, u, result);
    case MdnsReports(found) => FedOther(outputs, u, MdnsDone(found), Next(u, e));
    case ToastSent(text) => FedOther(outputs, u, Toast(text), Next(u, e));
    case _ => FedUser(outputs, u, e);
  }

  lemma FedHandle(outputs: nat -> Output, u: Ui)
    requires UiInv(u) && Fed(outputs, u)
    ensures Fed(outputs, Next(u, HandleNext))
  {
    hide Heard;
    if u.queue != [] {
      EndIsShown(outputs, u);
      hide Sent, InStep, HandledInOrder;
      HandlingKeepsAll(u);
    }
  }

  lemma HandlingKeepsAll(u: Ui)
    requires u.queue != []
    ensures Handle(u).handled + Handle(u).queue == u.handled + u.queue
    ensures Handle(u).scans == u.scans
    ensures forall j: nat :: Sent(Handle(u), j) == Sent(u, j)
  {
    hide Heard;
    assert u.queue == [u.queue[0]] + u.queue[1..];
    assert Handle(u).handled + Handle(u).queue == u.handled + u.queue;
  }

  /** Handling the end of a scan finishes the current one and shows its hits; handling anything else
      finishes none and shows what was shown. */
  lemma EndIsShown(outputs: nat -> Output, u: Ui)
    requires UiInv(u) && Fed(outputs, u) && u.queue != []
    ensures var v := Handle(u);
            if u.queue[0].ScanDone?
            then u.scans > 0 && Sent(u, u.scans - 1) == outputs(u.scans - 1).log && v.hits == outputs(u.scans - 1).hits
            else v.hits == u.hits && (u.status.PortBusy? <==> v.status.PortBusy?)
  {
    hide Signals, Sent;
    if !u.queue[0].Toast? {
      NextSignal(u);
      assert u.queue[0] in u.handled + u.queue;
    }
  }

  lemma FedEvent(outputs: nat -> Output, u: Ui, event: Scan.ScanEvent)
    requires UiInv(u) && Fed(outputs, u) && Feeds(outputs, u, ScanReports(event))
    ensures Fed(outputs, Next(u, ScanReports(event)))
  {
    hide Signals, Sent;
    if u.job.ScanRunning? {
      var j := u.job.job;
      var m, v := ScanEvt(j, event), Next(u, ScanReports(event));
      forall i: nat ensures Sent(v, i) == if i == j then Sent(u, i) + [event] else Sent(u, i) {
        SentAppend(u, m, v, i);
      }
      forall x | x in v.handled + v.queue && x.ScanDone? ensures x in u.handled + u.queue && x.job != j {
        EndIsToCome(u, x);
      }
    }
  }

  lemma FedEnd(outputs: nat -> Output, u: Ui, result: seq<Scan.Hit>)
    requires UiInv(u) && Fed(outputs, u) && Feeds(outputs, u, ScanEnds(result))
    ensures Fed(outputs, Next(u, ScanEnds(result)))
  {
    hide Signals, Sent;
    if u.job.ScanRunning? {
      var m, v := ScanDone(u.job.job, result), Next(u, ScanEnds(result));
      forall i: nat ensures Sent(v, i) == Sent(u, i) {
        SentAppend(u, m, v, i);
      }
      forall x | x in v.handled + v.queue && x != m ensures x in u.handled + u.queue {
      }
    }
  }

  lemma FedOther(outputs: nat -> Output, u: Ui, m: Msg, v: Ui)
    requires Fed(outputs, u) && (m.MdnsDone? || m.Toast?)
    requires v == u || v == u.(queue := u.queue + [m]) || v == u.(queue := u.queue + [m], job := NoJob)
    ensures Fed(outputs, v)
  {
    hide Sent;
    if v != u {
      forall i: nat ensures Sent(v, i) == Sent(u, i) {
        SentAppend(u, m, v, i);
      }
      forall x | x in v.handled + v.queue && x.ScanDone? ensures x in u.handled + u.queue {
      }
    }
  }

  lemma FedUser(outputs: nat -> Output, u: Ui, e: Event)
    requires UiInv(u) && Fed(outputs, u) && (e.StartMdns? || e.StartScan? || e.StopPressed?)
    ensures Fed(outputs, Next(u, e))
  {
    hide Heard, InStep, HandledInOrder;
    var v := Next(u, e);
    assert forall i: nat :: Sent(v, i) == Sent(u, i);
  }

  lemma {:induction false} EveryStateIsFed(outputs: nat -> Output, events: seq<Event>, states: seq<Ui>, k: nat)
    requires IsFedHistory(outputs, events, states) && k < |states|
    ensures Fed(outputs, states[k])
  {
    hide Next, Fed, Feeds, UiInv;
    if k > 0 {
      EveryStateIsFed(outputs, events, states, k - 1);
      EveryUiStateIsSound(events, states, k - 1);
      FedNext(outputs, states[k - 1], events[k - 1]);
    } else {
      OpenedIsFed(outputs);
    }
  }

  lemma OpenedIsFed(outputs: nat -> Output)
    ensures Fed(outputs, Opened())
  {
  }

  // ---- What the window has heard and shows ----

  lemma HeardConcat(a: seq<Msg>, b: seq<Msg>, job: nat)
    ensures Heard(a + b, job) == Heard(a, job) + Heard(b, job)
  {
    CollectConcat(EventOf(job), a, b);
  }

  lemma {:induction false} NothingHeard(queue: seq<Msg>, job: nat)
    requires forall m :: m in queue && m.ScanEvt? ==> m.job != job
    ensures Heard(queue, job) == []
  {
    if queue != [] {
      assert queue[|queue| - 1] in queue;
      NothingHeard(queue[..|queue| - 1], job);
    }
  }

  /** Of a finished scan no event is left in the queue. */
  lemma FinishedIsHandled(u: Ui, job: nat)
    requires UiInv(u) && Finished(u, job)
    ensures Heard(u.queue, job) == [] && Heard(u.handled, job) == Sent(u, job)
  {
    hide Signals, Heard;
    forall m | m in u.queue && m.ScanEvt? ensures m.job != job {
      SignalsHold(u.queue, m);
      SignalInStep(u, m);
    }
    NothingHeard(u.queue, job);
    HeardConcat(u.handled, u.queue, job);
  }

  lemma SignalInStep(u: Ui, m: Msg)
    requires InStep(u) && m in Signals(u.queue) && m.ScanEvt?
    ensures u.status.PortBusy? && m.job == u.scans - 1
  {
    hide Signals;
    var signals := Signals(u.queue);
    if u.status.PortBusy? && u.job.NoJob? {
      assert m in signals[..|signals| - 1] + [signals[|signals| - 1]];
    }
  }

  /** At every moment the window has handled a prefix of each scan's events, all of them once the scan
      has finished. Whenever no scan is running, the hits it shows are those of the last one, and the
      PortHit events it has handled for that scan are exactly these hits. */
  lemma ShownHitsWereAnnounced(outputs: nat -> Output, events: seq<Event>, states: seq<Ui>, k: nat, job: nat)
    requires IsFedHistory(outputs, events, states) && k < |states|
    requires forall j: nat :: Produced(outputs(j))
    ensures var u := states[k];
            && Heard(u.handled, job) <= outputs(job).log
            && (Finished(u, job) ==> Heard(u.handled, job) == outputs(job).log)
            && (u.scans > 0 && !u.status.PortBusy? ==>
                  && u.hits == outputs(u.scans - 1).hits
                  && forall h: Scan.Hit :: multiset(Heard(u.handled, u.scans - 1))[Scan.PortHit(h)] == multiset(u.hits)[h])
  {
    hide Heard, Next, Produced, UiInv, IsHistory;
    EveryUiStateIsSound(events, states, k);
    EveryStateIsFed(outputs, events, states, k);
    var u := states[k];
    HeardConcat(u.handled, u.queue, job);
    if Finished(u, job) {
      FinishedIsHandled(u, job);
    }
    if u.scans > 0 && !u.status.PortBusy? {
      FinishedIsHandled(u, u.scans - 1);
      forall h: Scan.Hit
        ensures multiset(Heard(u.handled, u.scans - 1))[Scan.PortHit(h)] == multiset(u.hits)[h]
      {
        ProducedHits(outputs(u.scans - 1), h);
      }
    }
  }

  // ---- The window in use ----

  /** An event sends at most one message, and handling one loses none. */
  lemma SentNext(u: Ui, e: Event, job: nat)
    ensures Sent(Next(u, e), job)
         == Sent(u, job) + if e.ScanReports? && u.job == ScanRunning(job) then [e.event] else []
  {
    hide Sent;
    var v := Next(u, e);
    if e.HandleNext? && u.queue != [] {
      HandlingKeepsAll(u);
    } else if v.queue != u.queue {
      MessageSent(u, e);
      hide Next;
      SentAppend(u, v.queue[|u.queue|], v, job);
    } else {
      QueueUnchanged(u, e, job);
    }
  }

  lemma MessageSent(u: Ui, e: Event)
    requires !e.HandleNext? && Next(u, e).queue != u.queue
    ensures var v := Next(u, e);
            && v.handled == u.handled && |v.queue| == |u.queue| + 1 && v.queue == u.queue + [v.queue[|u.queue|]]
            && (forall j: nat :: EventOf(j)(v.queue[|u.queue|])
                             == if e.ScanReports? && u.job == ScanRunning(j) then [e.event] else [])
  {
  }

  lemma QueueUnchanged(u: Ui, e: Event, job: nat)
    requires (e.HandleNext? ==> u.queue == []) && Next(u, e).queue == u.queue
    ensures Sent(Next(u, e), job) == Sent(u, job) && !(e.ScanReports? && u.job.ScanRunning?)
  {
  }

  lemma HistoryExtends(outputs: nat -> Output, events: seq<Event>, states: seq<Ui>, e: Event)
    requires IsFedHistory(outputs, events, states) && Feeds(outputs, states[|events|], e)
    ensures IsFedHistory(outputs, events + [e], states + [Next(states[|events|], e)])
  {
    hide Next, Feeds, Opened;
    var events', states' := events + [e], states + [Next(states[|events|], e)];
    forall k | 0 <= k < |events'|
      ensures states'[k + 1] == Next(states'[k], events'[k]) && Feeds(outputs, states'[k], events'[k])
    {
      assert k < |events| ==> events'[k] == events[k] && states'[k] == states[k] && states'[k + 1] == states[k + 1];
    }
  }

  /** How far the running scan's log has been sent. */
  ghost predicate InStepWith(outputs: nat -> Output, u: Ui, sent: nat) {
    u.job.ScanRunning? ==> sent <= |outputs(u.job.job).log| && Sent(u, u.job.job) == outputs(u.job.job).log[..sent]
  }

  /** A scan job is one that ran before or the one just started. */
  lemma JobNext(u: Ui, e: Event)
    ensures var v := Next(u, e);
            v.job.ScanRunning? ==>
              if v.scans == u.scans then v.job == u.job else e.StartScan? && v.job.job == u.scans
  {
    hide Handle;
    if e.HandleNext? && u.queue != [] {
      HandleFrame(u);
    }
  }

  lemma SentByNewScan(outputs: nat -> Output, u: Ui, job: nat)
    requires Fed(outputs, u)
    ensures job >= u.scans ==> Sent(u, job) == []
  {
    hide Sent;
  }

  lemma KeepsStep(outputs: nat -> Output, u: Ui, sent: nat, e: Event)
    requires Fed(outputs, u) && InStepWith(outputs, u, sent)
    requires e.ScanReports? && u.job.ScanRunning? ==>
               sent < |outputs(u.job.job).log| && e.event == outputs(u.job.job).log[sent]
    ensures var v := Next(u, e);
            InStepWith(outputs, v,
              if e.ScanReports? && u.job.ScanRunning? then sent + 1 else if v.scans != u.scans then 0 else sent)
  {
    hide Sent, Next, Fed;
    var v := Next(u, e);
    JobNext(u, e);
    if v.job.ScanRunning? {
      SentByNewScan(outputs, u, v.job.job);
      var log := outputs(v.job.job).log;
      SentNext(u, e, v.job.job);
      assert sent < |log| ==> log[..sent + 1] == log[..sent] + [log[sent]];
      assert v.scans != u.scans ==> log[..0] == [];
    }
  }

  /** The window from its opening on: in each turn the user, the message loop or a background thread
      does something, in any order. Its history is one to which everything above applies. */
  method Live(turns: nat, outputs: nat -> Output) returns (app: App, ghost events: seq<Event>, ghost states: seq<Ui>)
    ensures IsFedHistory(outputs, events, states) && app.View() == states[|events|]
  {
    hide Next, UiInv, Feeds, InStepWith, Sent, Opened;
    app := new App();
    events, states := [], [app.View()];
    var sent: nat := 0;
    NothingSent(outputs);
    for i := 0 to turns
      invariant fresh(app)
      invariant IsFedHistory(outputs, events, states) && app.View() == states[|events|]
      invariant InStepWith(outputs, app.View(), sent)
    {
      ghost var e;
      sent, e := Turn(app, outputs, sent, events, states);
      HistoryExtends(outputs, events, states, e);
      events, states := events + [e], states + [app.View()];
    }
  }

  lemma NothingSent(outputs: nat -> Output)
    ensures InStepWith(outputs, Opened(), 0) && IsFedHistory(outputs, [], [Opened()])
  {
  }

  /** One turn of anybody. */
  method Turn(app: App, outputs: nat -> Output, sent: nat, ghost events: seq<Event>, ghost states: seq<Ui>)
    returns (sent': nat, ghost e: Event)
    requires IsFedHistory(outputs, events, states) && app.View() == states[|events|]
    requires InStepWith(outputs, app.View(), sent)
    modifies app
    ensures Feeds(outputs, old(app.View()), e) && app.View() == Next(old(app.View()), e)
    ensures InStepWith(outputs, app.View(), sent')
  {
    ghost var u := app.View();
    EveryStateIsFed(outputs, events, states, |events|);
    hide Next, UiInv, Sent, Fed, Feeds, InStepWith, IsFedHistory;
    sent' := sent;
    if {
      case true =>
        var scans := app.scans;
        e := UserTurn(app);
        sent' := if app.scans != scans then 0 else sent;
        AlwaysFeeds(outputs, u, e);
      case true =>
        e := OtherTurn(app);
        AlwaysFeeds(outputs, u, e);
        ScansUnchanged(u, e);
      case app.job.ScanRunning? =>
        var output := outputs(app.job.job);
        StepIsKnown(outputs, u, sent);
        if sent < |output.log| {
          e := ScanReports(output.log[sent]);
          app.ReportEvent(output.log[sent]);
          sent' := sent + 1;
        } else {
          e := ScanEnds(output.hits);
          app.ReportEnd(output.hits);
        }
        ScansUnchanged(u, e);
    }
    KeepsStep(outputs, u, sent, e);
  }

  /** The user presses a button. */
  method UserTurn(app: App) returns (ghost e: Event)
    modifies app
    ensures e.StartMdns? || e.StartScan? || e.StopPressed?
    ensures app.View() == Next(old(app.View()), e)
  {
    hide Next;
    if {
      case true =>
        e := StartMdns;
        app.StartMdnsScan();
      case true =>
        var ports: Result<seq<U16>, string> := *;
        e := StartScan(ports);
        app.StartPortScan(ports);
      case true =>
        e := StopPressed;
        app.PressStop();
    }
  }

  /** The message loop takes a message, or a thread other than a scan job sends one. */
  method OtherTurn(app: App) returns (ghost e: Event)
    modifies app
    ensures e.HandleNext? || e.MdnsReports? || e.ToastSent?
    ensures app.View() == Next(old(app.View()), e)
  {
    hide Next;
    if {
      case app.queue != [] =>
        e := HandleNext;
        app.HandleMessage();
      case true =>
        var found: seq<AdbService> := *;
        e := MdnsReports(found);
        app.ReportServices(found);
      case true =>
        var text: string := *;
        e := ToastSent(text);
        app.SendToast(text);
    }
  }

  lemma AlwaysFeeds(outputs: nat -> Output, u: Ui, e: Event)
    requires !e.ScanReports? && !e.ScanEnds?
    ensures Feeds(outputs, u, e)
  {
  }

  /** What a scan job sends next is what its output says. */
  lemma StepIsKnown(outputs: nat -> Output, u: Ui, sent: nat)
    requires u.job.ScanRunning? && InStepWith(outputs, u, sent)
    ensures var output := outputs(u.job.job);
            && sent <= |output.log|
            && (sent < |output.log| ==> Feeds(outputs, u, ScanReports(output.log[sent])))
            && (sent == |output.log| ==> Feeds(outputs, u, ScanEnds(output.hits)))
  {
    hide Sent;
    var log := outputs(u.job.job).log;
    assert sent < |log| ==> log[..sent] + [log[sent]] == log[..sent + 1];
  }

  lemma ScansUnchanged(u: Ui, e: Event)
    requires !e.StartScan?
    ensures Next(u, e).scans == u.scans
  {
    hide Handle;
    if e.HandleNext? && u.queue != [] {
      HandleFrame(u);
    }
  }
}
